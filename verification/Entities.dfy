/** Generational entity handles: the slot table, its free list, and when a handle resolves. */
module Entities {
  import opened Generations
  import opened Lists

  datatype EntityId = EntityId(index: nat, generation: nat)
  {
    predicate IsValid() { generation != 0 }
  }

  const INVALID_ENTITY := EntityId(0, 0)

  datatype Location = Location(archetype: nat, chunk: nat, row: nat)

  const NOWHERE := Location(0, 0, 0)

  datatype Slot = Slot(generation: nat, alive: bool, location: Location)

  /** What the registry holds. */
  datatype Table = Table(slots: seq<Slot>, free: seq<nat>, aliveCount: nat)
  {
    /** The free list is exactly the dead indices, without repeats. */
    predicate Valid() {
      && Distinct(free)
      && (forall i :: 0 <= i < |free| ==> free[i] < |slots| && !slots[free[i]].alive)
      && (forall i :: 0 <= i < |slots| && !slots[i].alive ==> i in free)
      && (forall i :: 0 <= i < |slots| ==> 1 <= slots[i].generation <= GENERATIONS)
      && |free| + aliveCount == |slots|
    }

    predicate IsAlive(e: EntityId) {
      e.IsValid() && e.index < |slots| && slots[e.index].alive && slots[e.index].generation == e.generation
    }

    /** The handle of an index that is alive. */
    function IdOf(i: nat): EntityId
      requires i < |slots|
    {
      EntityId(i, slots[i].generation)
    }

    function NextIndex(): nat
      requires Valid()
    {
      if free != [] then free[|free| - 1] else |slots|
    }

    function NewId(): EntityId
      requires Valid()
    {
      EntityId(NextIndex(), if free != [] then slots[NextIndex()].generation else 1)
    }

    function Created(): Table
      requires Valid()
    {
      var slot := Slot(NewId().generation, true, NOWHERE);
      if free != [] then Table(slots[NextIndex() := slot], free[..|free| - 1], aliveCount + 1)
      else Table(slots + [slot], free, aliveCount + 1)
    }

    function Destroyed(e: EntityId): Table
      requires Valid() && IsAlive(e)
    {
      Table(slots[e.index := Slot(NextGeneration(e.generation), false, NOWHERE)], free + [e.index],
            if aliveCount > 0 then aliveCount - 1 else 0)
    }

    function Relocated(e: EntityId, location: Location): Table
      requires e.index < |slots|
    {
      this.(slots := slots[e.index := slots[e.index].(location := location)])
    }

    function LocationOf(e: EntityId): Location
      requires e.index < |slots|
    {
      slots[e.index].location
    }

    // --- what the operations keep -----------------------------------------------------------------

    lemma CreatedValid()
      requires Valid()
      ensures Created().Valid() && Created().IsAlive(NewId()) && !IsAlive(NewId()) && Created().LocationOf(NewId()) == NOWHERE
      ensures forall e: EntityId :: e != NewId() ==> (Created().IsAlive(e) <==> IsAlive(e))
      ensures forall e :: IsAlive(e) ==> Created().LocationOf(e) == LocationOf(e)
    {
      CreatedSlots();
      CreatedFree();
    }

    lemma CreatedSlots()
      requires Valid()
      ensures Created().IsAlive(NewId()) && !IsAlive(NewId()) && Created().LocationOf(NewId()) == NOWHERE
      ensures forall e: EntityId :: e != NewId() ==> (Created().IsAlive(e) <==> IsAlive(e))
      ensures forall e :: IsAlive(e) ==> Created().LocationOf(e) == LocationOf(e)
    {}

    lemma CreatedFree()
      requires Valid()
      ensures Created().Valid()
    {
      var t := Created();
      if free != [] {
        assert forall i :: 0 <= i < |t.free| ==> t.free[i] == free[i];
        forall i | 0 <= i < |t.slots| && !t.slots[i].alive ensures i in t.free {
          assert i in free && i != free[|free| - 1];
          var k :| 0 <= k < |free| && free[k] == i;
          assert t.free[k] == i;
        }
      }
    }

    lemma DestroyedValid(e: EntityId)
      requires Valid() && IsAlive(e)
      ensures Destroyed(e).Valid() && !Destroyed(e).IsAlive(e)
      ensures forall d :: d != e ==> (Destroyed(e).IsAlive(d) <==> IsAlive(d))
      ensures forall d :: d != e && IsAlive(d) ==> Destroyed(e).LocationOf(d) == LocationOf(d)
    {
      var t := Destroyed(e);
      assert e.index !in free;
      SomeAlive(e.index);
      assert t.free[|free|] == e.index;
      forall i | 0 <= i < |t.slots| && !t.slots[i].alive ensures i in t.free {
        if i != e.index {
          var k :| 0 <= k < |free| && free[k] == i;
          assert t.free[k] == i;
        }
      }
    }

    /** An index that is alive is not on the free list, so the list is shorter than the table. */
    lemma SomeAlive(i: nat)
      requires Valid() && i < |slots| && slots[i].alive
      ensures aliveCount > 0
    {
      DistinctBounded(free + [i], Below(|slots|));
    }
  }

  /** mSlots, mFreeIndices and mAliveCount. */
  class EntityRegistry {
    var slots: seq<Slot>
    var freeIndices: seq<nat>
    var aliveCount: nat

    ghost function Contents(): Table
      reads this
    {
      Table(slots, freeIndices, aliveCount)
    }

    constructor ()
      ensures Contents() == Table([], [], 0) && Contents().Valid()
    {
      slots, freeIndices, aliveCount := [], [], 0;
    }

    method Create() returns (e: EntityId)
      requires Contents().Valid()
      modifies this
      ensures e == old(Contents().NewId()) && Contents() == old(Contents().Created())
      ensures old(freeIndices) == [] ==> e == EntityId(|old(slots)|, 1)
      ensures old(freeIndices) != [] ==>
        var index := old(freeIndices)[|old(freeIndices)| - 1]; e == EntityId(index, old(slots)[index].generation)
    {
      var index := |slots|;
      if freeIndices != [] {
        index := freeIndices[|freeIndices| - 1];
        freeIndices := freeIndices[..|freeIndices| - 1];
      } else {
        slots := slots + [Slot(1, false, NOWHERE)];
      }
      slots := slots[index := slots[index].(alive := true, location := NOWHERE)];
      aliveCount := aliveCount + 1;
      e := EntityId(index, slots[index].generation);
    }

    method Destroy(e: EntityId)
      requires Contents().Valid() && Contents().IsAlive(e)
      modifies this
      ensures Contents() == old(Contents().Destroyed(e))
    {
      Contents().SomeAlive(e.index);
      slots := slots[e.index := Slot(NextGeneration(slots[e.index].generation), false, NOWHERE)];
      freeIndices := freeIndices + [e.index];
      aliveCount := aliveCount - 1;
    }

    method IsAlive(e: EntityId) returns (alive: bool)
      ensures alive == Contents().IsAlive(e)
    {
      if !e.IsValid() || e.index >= |slots| {
        return false;
      }
      var slot := slots[e.index];
      return slot.alive && slot.generation == e.generation;
    }

    method SetLocation(e: EntityId, location: Location)
      requires Contents().IsAlive(e)
      modifies this
      ensures Contents() == old(Contents().Relocated(e, location))
    {
      slots := slots[e.index := slots[e.index].(location := location)];
    }

    /** Rebuilds the table from what was saved; creations then reuse dead indices in ascending order. */
    method Restore(generations: seq<nat>, alive: seq<bool>)
      requires |generations| == |alive| && forall i :: 0 <= i < |generations| ==> 1 <= generations[i] <= GENERATIONS
      modifies this
      ensures Contents().Valid() && |slots| == |generations|
      ensures forall i :: 0 <= i < |slots| ==> slots[i] == Slot(generations[i], alive[i], NOWHERE)
      ensures forall i, j :: 0 <= i < j < |freeIndices| ==> freeIndices[i] > freeIndices[j]
    {
      slots, aliveCount := [], 0;
      while |slots| < |generations|
        invariant |slots| <= |generations| && aliveCount + DeadBelow(alive, |slots|) == |slots|
        invariant forall i :: 0 <= i < |slots| ==> slots[i] == Slot(generations[i], alive[i], NOWHERE)
      {
        aliveCount := aliveCount + if alive[|slots|] then 1 else 0;
        slots := slots + [Slot(generations[|slots|], alive[|slots|], NOWHERE)];
      }
      freeIndices := DeadIndices(alive);
    }
  }

  /** The dead indices, highest first. */
  method DeadIndices(alive: seq<bool>) returns (free: seq<nat>)
    ensures |free| == DeadBelow(alive, |alive|)
    ensures forall i, j :: 0 <= i < j < |free| ==> free[i] > free[j]
    ensures forall i :: 0 <= i < |free| ==> free[i] < |alive| && !alive[free[i]]
    ensures forall i :: 0 <= i < |alive| && !alive[i] ==> i in free
  {
    free := [];
    var index := |alive|;
    while index > 0
      invariant 0 <= index <= |alive| && |free| + DeadBelow(alive, index) == DeadBelow(alive, |alive|)
      invariant forall i, j :: 0 <= i < j < |free| ==> free[i] > free[j]
      invariant forall i :: 0 <= i < |free| ==> index <= free[i] < |alive| && !alive[free[i]]
      invariant forall i :: index <= i < |alive| && !alive[i] ==> i in free
    {
      index := index - 1;
      if !alive[index] {
        free := free + [index];
        assert free[|free| - 1] == index;
      }
    }
  }

  function DeadBelow(alive: seq<bool>, n: nat): nat
    requires n <= |alive|
  {
    if n == 0 then 0 else DeadBelow(alive, n - 1) + if alive[n - 1] then 0 else 1
  }

  // --- handles over whole runs ----------------------------------------------------------------------

  datatype TableStep = Make | End(e: EntityId) | Locate(e: EntityId, location: Location)

  predicate Allowed(t: Table, step: TableStep) {
    t.Valid() && (step.Make? || t.IsAlive(step.e))
  }

  function Apply(t: Table, step: TableStep): Table
    requires Allowed(t, step)
  {
    match step
    case Make => t.Created()
    case End(e) => t.Destroyed(e)
    case Locate(e, location) => t.Relocated(e, location)
  }

  ghost predicate TableRun(t: Table, steps: seq<TableStep>, u: Table)
    decreases |steps|
  {
    if steps == [] then t == u
    else Allowed(t, steps[0]) && TableRun(Apply(t, steps[0]), steps[1..], u)
  }

  /** How often an index is destroyed in a run. */
  function Destroys(steps: seq<TableStep>, i: nat): nat
    decreases |steps|
  {
    if steps == [] then 0
    else (if steps[0].End? && steps[0].e.index == i then 1 else 0) + Destroys(steps[1..], i)
  }

  /** The generation after k bumps. */
  function Advanced(g: nat, k: nat): nat
    requires g >= 1
  {
    1 + (g - 1 + k) % GENERATIONS
  }

  lemma AdvancedNext(g: nat, k: nat)
    requires 1 <= g <= GENERATIONS
    ensures Advanced(NextGeneration(g), k) == Advanced(g, k + 1)
  {
    if g == GENERATIONS {
      assert (g - 1 + (k + 1)) == GENERATIONS + k;
    }
  }

  lemma ApplyKeeps(t: Table, step: TableStep, i: nat)
    requires Allowed(t, step) && i < |t.slots|
    ensures Apply(t, step).Valid() && i < |Apply(t, step).slots|
    ensures Apply(t, step).slots[i].generation ==
      if step.End? && step.e.index == i then NextGeneration(t.slots[i].generation) else t.slots[i].generation
  {
    match step
    case Make => t.CreatedValid();
    case End(e) => t.DestroyedValid(e);
    case Locate(e, location) =>
  }

  lemma {:induction false} GenerationOverRun(t: Table, steps: seq<TableStep>, u: Table, i: nat)
    requires t.Valid() && TableRun(t, steps, u) && i < |t.slots|
    ensures u.Valid() && i < |u.slots|
    ensures u.slots[i].generation == Advanced(t.slots[i].generation, Destroys(steps, i))
    decreases |steps|
  {
    if steps != [] {
      ApplyKeeps(t, steps[0], i);
      GenerationOverRun(Apply(t, steps[0]), steps[1..], u, i);
      AdvancedNext(t.slots[i].generation, Destroys(steps[1..], i));
    }
  }

  /** A destroyed handle stays dead through every run, short of generation wrap: it resolves again
      exactly when its index is alive after a multiple of 0xFFFFFFFF destructions, its own the
      first of them. */
  lemma DestroyedHandleResolves(t: Table, e: EntityId, steps: seq<TableStep>, u: Table)
    requires t.Valid() && t.IsAlive(e) && TableRun(t.Destroyed(e), steps, u)
    ensures u.IsAlive(e) <==>
      e.index < |u.slots| && u.slots[e.index].alive && (1 + Destroys(steps, e.index)) % GENERATIONS == 0
  {
    t.DestroyedValid(e);
    GenerationOverRun(t.Destroyed(e), steps, u, e.index);
    AdvancedNext(e.generation, Destroys(steps, e.index));
    ComesRound(e.generation - 1, 1 + Destroys(steps, e.index));
  }

  /** Adding k comes back to the same remainder exactly for the multiples of GENERATIONS. */
  lemma ComesRound(x: nat, k: nat)
    requires x < GENERATIONS
    ensures (x + k) % GENERATIONS == x <==> k % GENERATIONS == 0
  {
    var q, r := k / GENERATIONS, k % GENERATIONS;
    assert k == q * GENERATIONS + r;
    if x + r < GENERATIONS {
      assert x + k == q * GENERATIONS + (x + r);
    } else {
      assert x + k == (q + 1) * GENERATIONS + (x + r - GENERATIONS);
    }
  }
}
