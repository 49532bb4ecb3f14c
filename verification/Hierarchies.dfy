/** The transform hierarchy: parented entities in depth order, and one pass that propagates. */
module Hierarchies {
  import opened Entities

  const MAX_DEPTH := 64

  datatype Entry = Entry(entity: EntityId, depth: nat)

  /** How many steps the chain of parents takes, at most n. */
  function DepthWithin(parents: map<EntityId, EntityId>, e: EntityId, n: nat): (r: nat)
    ensures r <= n
    decreases n
  {
    if n == 0 || e !in parents then 0 else 1 + DepthWithin(parents, parents[e], n - 1)
  }

  /** The chain of parents ends, within n steps, at an entity without one. */
  predicate Ends(parents: map<EntityId, EntityId>, e: EntityId, n: nat)
    decreases n
  {
    e !in parents || (n > 0 && Ends(parents, parents[e], n - 1))
  }

  lemma {:induction false} EndsWithin(parents: map<EntityId, EntityId>, e: EntityId, n: nat, m: nat)
    requires Ends(parents, e, n) && n <= m
    ensures Ends(parents, e, m) && DepthWithin(parents, e, m) == DepthWithin(parents, e, n)
    decreases n
  {
    if e in parents {
      EndsWithin(parents, parents[e], n - 1, m - 1);
    }
  }

  lemma {:induction false} EndlessIsCapped(parents: map<EntityId, EntityId>, e: EntityId, n: nat)
    requires !Ends(parents, e, n)
    ensures DepthWithin(parents, e, n) == n
    decreases n
  {
    if n > 0 {
      EndlessIsCapped(parents, parents[e], n - 1);
    }
  }

  /** By depth, and by entity index where the depths are equal. */
  predicate Less(a: Entry, b: Entry) {
    a.depth < b.depth || (a.depth == b.depth && a.entity.index < b.entity.index)
  }

  predicate Sorted(entries: seq<Entry>) {
    forall i, j :: 0 <= i < j < |entries| ==> Less(entries[i], entries[j])
  }

  predicate DifferentIndices(entries: seq<Entry>) {
    forall i, j :: 0 <= i < j < |entries| ==> entries[i].entity.index != entries[j].entity.index
  }

  function Insert(entries: seq<Entry>, e: Entry): seq<Entry> {
    if entries == [] || Less(entries[|entries| - 1], e) then entries + [e]
    else Insert(entries[..|entries| - 1], e) + [entries[|entries| - 1]]
  }

  function Sort(entries: seq<Entry>): seq<Entry> {
    if entries == [] then [] else Insert(Sort(entries[..|entries| - 1]), entries[|entries| - 1])
  }

  lemma {:induction false} InsertSorts(entries: seq<Entry>, e: Entry)
    requires Sorted(entries) && forall i :: 0 <= i < |entries| ==> entries[i].entity.index != e.entity.index
    ensures Sorted(Insert(entries, e)) && multiset(Insert(entries, e)) == multiset(entries) + multiset{e}
    decreases |entries|
  {
    if entries != [] {
      var n := |entries| - 1;
      assert entries == entries[..n] + [entries[n]];
      if !Less(entries[n], e) {
        InsertSorts(entries[..n], e);
        var front := Insert(entries[..n], e);
        forall i | 0 <= i < |front| ensures Less(front[i], entries[n]) {
          assert front[i] in multiset(front);
          assert front[i] == e || front[i] in entries[..n];
        }
      }
    }
  }

  /** The comparison is total on entities with different indices, so there is one sorted order. */
  lemma {:induction false} SortSorts(entries: seq<Entry>)
    requires DifferentIndices(entries)
    ensures Sorted(Sort(entries)) && multiset(Sort(entries)) == multiset(entries)
    decreases |entries|
  {
    if entries != [] {
      var n := |entries| - 1;
      SortSorts(entries[..n]);
      assert entries == entries[..n] + [entries[n]];
      var front := Sort(entries[..n]);
      forall i | 0 <= i < |front| ensures front[i].entity.index != entries[n].entity.index {
        assert front[i] in multiset(front);
        assert front[i] in entries[..n];
        var k :| 0 <= k < n && entries[k] == front[i];
      }
      InsertSorts(front, entries[n]);
    }
  }

  /** The entities with their depths, in propagation order. */
  predicate InDepthOrder(parents: map<EntityId, EntityId>, order: seq<EntityId>) {
    forall i, j :: 0 <= i < j < |order| ==>
      Less(Entry(order[i], DepthWithin(parents, order[i], MAX_DEPTH)), Entry(order[j], DepthWithin(parents, order[j], MAX_DEPTH)))
  }

  function Place(order: seq<EntityId>, e: EntityId): (i: nat)
    requires e in order
    ensures i < |order| && order[i] == e
  {
    if order[|order| - 1] == e then |order| - 1 else Place(order[..|order| - 1], e)
  }

  /** A parent comes before its child exactly when the child's chain ends within MAX_DEPTH, or its
      index happens to be lower: deeper chains are all cut to the same depth. */
  lemma ParentFirst(parents: map<EntityId, EntityId>, order: seq<EntityId>, e: EntityId)
    requires InDepthOrder(parents, order) && e in order && e in parents && parents[e] in order
    ensures Place(order, parents[e]) < Place(order, e) <==>
      Ends(parents, e, MAX_DEPTH) || parents[e].index < e.index
  {
    var p := parents[e];
    var i, j := Place(order, p), Place(order, e);
    if Ends(parents, e, MAX_DEPTH) {
      EndsWithin(parents, p, MAX_DEPTH - 1, MAX_DEPTH);
    } else {
      EndlessIsCapped(parents, e, MAX_DEPTH);
      ParentCapped(parents, e);
    }
    if i < j {
      assert Less(Entry(order[i], DepthWithin(parents, order[i], MAX_DEPTH)), Entry(order[j], DepthWithin(parents, order[j], MAX_DEPTH)));
    } else if j < i {
      assert Less(Entry(order[j], DepthWithin(parents, order[j], MAX_DEPTH)), Entry(order[i], DepthWithin(parents, order[i], MAX_DEPTH)));
    }
  }

  lemma ParentCapped(parents: map<EntityId, EntityId>, e: EntityId)
    requires e in parents && !Ends(parents, e, MAX_DEPTH)
    ensures DepthWithin(parents, parents[e], MAX_DEPTH) >= MAX_DEPTH - 1
    ensures DepthWithin(parents, parents[e], MAX_DEPTH) == MAX_DEPTH
  {
    EndlessIsCapped(parents, parents[e], MAX_DEPTH - 1);
    if Ends(parents, parents[e], MAX_DEPTH) {
      ExactlyDepth(parents, parents[e], MAX_DEPTH - 1);
    } else {
      EndlessIsCapped(parents, parents[e], MAX_DEPTH);
    }
  }

  lemma {:induction false} ExactlyDepth(parents: map<EntityId, EntityId>, e: EntityId, n: nat)
    requires !Ends(parents, e, n) && Ends(parents, e, n + 1)
    ensures DepthWithin(parents, e, n + 1) == n + 1
    decreases n
  {
    if n > 0 {
      ExactlyDepth(parents, parents[e], n - 1);
    }
  }

  // --- propagation ----------------------------------------------------------------------------------

  /** One entity of the pass; without a parent that has a world matrix it keeps its own. */
  function Propagated<M>(parents: map<EntityId, EntityId>, local: map<EntityId, M>, mul: (M, M) -> M,
                         world: map<EntityId, M>, e: EntityId): map<EntityId, M>
  {
    if e in parents && parents[e] in world && e in local && e in world then world[e := mul(world[parents[e]], local[e])]
    else world
  }

  function Swept<M>(parents: map<EntityId, EntityId>, local: map<EntityId, M>, mul: (M, M) -> M,
                    world: map<EntityId, M>, order: seq<EntityId>): (r: map<EntityId, M>)
    ensures r.Keys == world.Keys
  {
    if order == [] then world
    else Propagated(parents, local, mul, Swept(parents, local, mul, world, order[..|order| - 1]), order[|order| - 1])
  }

  function Members(order: seq<EntityId>): set<EntityId> {
    set e | e in order
  }

  /** The definition: an entity of the pass is where its parent is, times its own matrix. */
  function Definition<M>(parents: map<EntityId, EntityId>, local: map<EntityId, M>, mul: (M, M) -> M,
                         world: map<EntityId, M>, visited: set<EntityId>, e: EntityId, n: nat): M
    requires e in world
    decreases n
  {
    if n == 0 || e !in visited || e !in parents || parents[e] !in world || e !in local then world[e]
    else mul(Definition(parents, local, mul, world, visited, parents[e], n - 1), local[e])
  }

  lemma {:induction false} DefinitionStable<M>(parents: map<EntityId, EntityId>, local: map<EntityId, M>, mul: (M, M) -> M,
                             world: map<EntityId, M>, visited: set<EntityId>, e: EntityId, n: nat, m: nat)
    requires e in world && Ends(parents, e, n) && n <= m
    ensures Definition(parents, local, mul, world, visited, e, m) == Definition(parents, local, mul, world, visited, e, n)
    decreases n
  {
    if e in parents && parents[e] in world {
      DefinitionStable(parents, local, mul, world, visited, parents[e], n - 1, m - 1);
    }
  }

  /** The pass so far: entities already visited have their final matrix, the others their old one. */
  lemma {:induction false} SweptPrefix<M>(parents: map<EntityId, EntityId>, local: map<EntityId, M>, mul: (M, M) -> M,
                        world: map<EntityId, M>, order: seq<EntityId>, k: nat, e: EntityId)
    requires k <= |order| && e in world && InDepthOrder(parents, order) && (e in order ==> Ends(parents, e, MAX_DEPTH))
    ensures Swept(parents, local, mul, world, order[..k])[e] ==
      if e in order[..k] then Definition(parents, local, mul, world, Members(order), e, MAX_DEPTH) else world[e]
    decreases k
  {
    if k > 0 {
      var c := order[k - 1];
      assert order[..k][..k - 1] == order[..k - 1] && order[..k][k - 1] == c;
      SweptPrefix(parents, local, mul, world, order, k - 1, e);
      if e == c && c in parents && parents[c] in world && c in local {
        var p := parents[c];
        EndsWithin(parents, p, MAX_DEPTH - 1, MAX_DEPTH);
        SweptPrefix(parents, local, mul, world, order, k - 1, p);
        DefinitionStable(parents, local, mul, world, Members(order), p, MAX_DEPTH - 1, MAX_DEPTH);
        VisitedBefore(parents, order, k - 1);
      } else if e != c {
        assert e in order[..k] <==> e in order[..k - 1];
      }
    }
  }

  lemma NoRepeats(parents: map<EntityId, EntityId>, order: seq<EntityId>)
    requires InDepthOrder(parents, order)
    ensures forall i, j :: 0 <= i < j < |order| ==> order[i] != order[j]
    ensures forall k :: 0 <= k < |order| ==> Place(order, order[k]) == k
  {}

  lemma VisitedBefore(parents: map<EntityId, EntityId>, order: seq<EntityId>, k: nat)
    requires k < |order| && InDepthOrder(parents, order) && order[k] in parents && Ends(parents, order[k], MAX_DEPTH)
    ensures parents[order[k]] in order ==> parents[order[k]] in order[..k]
    ensures order[k] !in order[..k]
  {
    NoRepeats(parents, order);
    if parents[order[k]] in order {
      ParentFirst(parents, order, order[k]);
      assert order[..k][Place(order, parents[order[k]])] == parents[order[k]];
    }
  }

  lemma InMembers(order: seq<EntityId>, e: EntityId)
    ensures e in Members(order) <==> e in order
  {}

  /** One pass in depth order computes the recursive definition for every entity whose own chain is acyclic
      and at most MAX_DEPTH long, whatever the others' chains are: it ends with its parent's final matrix
      times its own. */
  lemma OnePass<M>(parents: map<EntityId, EntityId>, local: map<EntityId, M>, mul: (M, M) -> M,
                   world: map<EntityId, M>, order: seq<EntityId>, e: EntityId)
    requires InDepthOrder(parents, order) && e in world && (e in order ==> Ends(parents, e, MAX_DEPTH))
    ensures var w := Swept(parents, local, mul, world, order);
      && w[e] == Definition(parents, local, mul, world, Members(order), e, MAX_DEPTH)
      && (e in order && e in parents && parents[e] in world && e in local ==> w[e] == mul(w[parents[e]], local[e]))
      && (e !in order ==> w[e] == world[e])
  {
    hide Swept, InDepthOrder, Members;
    assert order[..|order|] == order;
    assert e in Members(order) <==> e in order by { InMembers(order, e); }
    SweptPrefix(parents, local, mul, world, order, |order|, e);
    if e in order && e in parents && parents[e] in world && e in local {
      InMembers(order, parents[e]);
      EndsWithin(parents, parents[e], MAX_DEPTH - 1, MAX_DEPTH);
      SweptPrefix(parents, local, mul, world, order, |order|, parents[e]);
      DefinitionStable(parents, local, mul, world, Members(order), parents[e], MAX_DEPTH - 1, MAX_DEPTH);
    }
  }

  /** mScratch, mOrder and mRebuilds. */
  class TransformHierarchy {
    var scratch: seq<Entry>
    var order: seq<EntityId>
    var rebuilds: nat

    constructor ()
      ensures scratch == [] && order == [] && rebuilds == 0
    {
      scratch, order, rebuilds := [], [], 0;
    }

    /** Measures the chain of every collected entity and sorts them, parents first. */
    method Rebuild(parents: map<EntityId, EntityId>)
      requires DifferentIndices(scratch)
      modifies this
      ensures InDepthOrder(parents, order) && rebuilds == old(rebuilds) + 1
      ensures forall e :: e in order <==> exists i :: 0 <= i < |old(scratch)| && old(scratch)[i].entity == e
      ensures |order| == |old(scratch)|
    {
      hide DepthWithin, Sort, InDepthOrder;
      var i := 0;
      while i < |scratch|
        invariant i <= |scratch| == |old(scratch)|
        invariant forall k :: 0 <= k < |scratch| ==> scratch[k].entity == old(scratch)[k].entity
        invariant forall k :: 0 <= k < i ==> scratch[k].depth == DepthWithin(parents, scratch[k].entity, MAX_DEPTH)
        invariant rebuilds == old(rebuilds)
      {
        var depth := Measure(parents, scratch[i].entity);
        scratch := scratch[i := scratch[i].(depth := depth)];
        i := i + 1;
      }
      ghost var measured := scratch;
      SortSorts(scratch);
      scratch := Sort(scratch);
      SameEntries(measured, scratch);
      order := [];
      i := 0;
      while i < |scratch|
        invariant i <= |scratch| && |order| == i && rebuilds == old(rebuilds) && scratch == Sort(measured)
        invariant forall k :: 0 <= k < i ==> order[k] == scratch[k].entity
      {
        order := order + [scratch[i].entity];
        i := i + 1;
      }
      rebuilds := rebuilds + 1;
      Reordered(parents, measured, scratch, order);
    }

    /** The pass over the order of the last rebuild. */
    method Sweep<M>(scene: Scene<M>, mul: (M, M) -> M)
      modifies scene
      ensures scene.parents == old(scene.parents) && scene.local == old(scene.local)
      ensures scene.world == Swept(scene.parents, scene.local, mul, old(scene.world), order)
    {
      var i := 0;
      while i < |order|
        invariant i <= |order| && scene.parents == old(scene.parents) && scene.local == old(scene.local)
        invariant scene.world == Swept(scene.parents, scene.local, mul, old(scene.world), order[..i])
      {
        var e := order[i];
        assert order[..i + 1][..i] == order[..i];
        if e in scene.parents {
          var p := scene.parents[e];
          if p in scene.world && e in scene.local && e in scene.world {
            scene.world := scene.world[e := mul(scene.world[p], scene.local[e])];
          }
        }
        i := i + 1;
      }
      assert order[..|order|] == order;
    }
  }

  /** The component columns the pass looks up. */
  class Scene<M> {
    var parents: map<EntityId, EntityId>
    var local: map<EntityId, M>
    var world: map<EntityId, M>
  }

  method Measure(parents: map<EntityId, EntityId>, e: EntityId) returns (depth: nat)
    ensures depth == DepthWithin(parents, e, MAX_DEPTH)
  {
    depth := 0;
    var current := e;
    while depth < MAX_DEPTH && current in parents
      invariant depth <= MAX_DEPTH
      invariant depth + DepthWithin(parents, current, MAX_DEPTH - depth) == DepthWithin(parents, e, MAX_DEPTH)
    {
      depth := depth + 1;
      current := parents[current];
    }
  }

  lemma SameEntries(a: seq<Entry>, b: seq<Entry>)
    requires multiset(a) == multiset(b)
    ensures |a| == |b| && forall x :: x in a <==> x in b
  {
    assert |multiset(a)| == |multiset(b)|;
    forall x ensures x in a <==> x in b {
      assert x in multiset(a) <==> x in multiset(b);
    }
  }

  lemma Reordered(parents: map<EntityId, EntityId>, measured: seq<Entry>, sorted: seq<Entry>, order: seq<EntityId>)
    requires Sorted(sorted) && |order| == |sorted| && forall x :: x in measured <==> x in sorted
    requires forall k :: 0 <= k < |order| ==> order[k] == sorted[k].entity
    requires forall k :: 0 <= k < |measured| ==> measured[k].depth == DepthWithin(parents, measured[k].entity, MAX_DEPTH)
    ensures InDepthOrder(parents, order)
    ensures forall e :: e in order <==> exists i :: 0 <= i < |measured| && measured[i].entity == e
  {
    forall k | 0 <= k < |sorted| ensures sorted[k] == Entry(order[k], DepthWithin(parents, order[k], MAX_DEPTH)) {
      assert sorted[k] in measured;
    }
    forall e ensures e in order <==> exists i :: 0 <= i < |measured| && measured[i].entity == e {
      if i :| 0 <= i < |measured| && measured[i].entity == e {
        assert measured[i] in sorted;
        var k :| 0 <= k < |sorted| && sorted[k] == measured[i];
        assert order[k] == e;
      }
      if e in order {
        var k :| 0 <= k < |order| && order[k] == e;
        assert sorted[k] in measured;
        var i :| 0 <= i < |measured| && measured[i] == sorted[k];
        assert measured[i].entity == e;
      }
    }
  }
}
