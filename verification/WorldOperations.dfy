/** The operations of a world, and the map from live entities to components they refine. */
module WorldOperations {
  import opened Bytes
  import opened Results
  import opened Entities
  import opened Archetypes
  import opened WorldStates

  datatype Outcome<T> = Outcome(state: State, result: Result<T>)

  // --- operations on the stored state ---------------------------------------------------------------

  function FindFrom(archetypes: seq<Storage>, mask: set<nat>, prototype: bool, i: nat): (r: nat)
    requires i <= |archetypes|
    ensures i <= r <= |archetypes|
    ensures forall a :: i <= a < r ==> archetypes[a].mask != mask || archetypes[a].prototype != prototype
    ensures r < |archetypes| ==> archetypes[r].mask == mask && archetypes[r].prototype == prototype
    decreases |archetypes| - i
  {
    if i == |archetypes| || (archetypes[i].mask == mask && archetypes[i].prototype == prototype) then i
    else FindFrom(archetypes, mask, prototype, i + 1)
  }

  ghost function GetOrCreateArchetype(cfg: Config, mem: Memory, s: State, mask: set<nat>, prototype: bool): (r: Outcome<nat>)
    ensures r.result.Ok? ==> r.result.value < |r.state.archetypes|
  {
    var found := FindFrom(s.archetypes, mask, prototype, 0);
    if found < |s.archetypes| then Outcome(s, Ok(found))
    else if cfg.Capacity(mask) == 0 then Outcome(s, Fail(InvalidArgument))
    else if !mem.archetype then Outcome(s, Fail(OutOfMemory))
    else Outcome(s.(archetypes := s.archetypes + [Storage(mask, prototype, cfg.Capacity(mask), [])]), Ok(|s.archetypes|))
  }

  /** The new archetype is empty, so nothing else changes. */
  lemma ArchetypeThere(cfg: Config, mem: Memory, s: State, mask: set<nat>, prototype: bool, hole: Hole, unplaced: EntityId)
    requires s.Fits(cfg, hole, unplaced)
    ensures var r := GetOrCreateArchetype(cfg, mem, s, mask, prototype);
      && r.state.Fits(cfg, hole, unplaced) && r.state == s.(archetypes := r.state.archetypes)
      && |s.archetypes| <= |r.state.archetypes| && r.state.archetypes[..|s.archetypes|] == s.archetypes
      && (r.result.Ok? ==>
            && r.state.archetypes[r.result.value].mask == mask && r.state.archetypes[r.result.value].prototype == prototype
            && forall t :: t in mask ==> cfg.Registered(t))
      && (r.result.Fail? ==> r.state == s)
  {
    var r := GetOrCreateArchetype(cfg, mem, s, mask, prototype);
    var n := |s.archetypes|;
    forall a | 0 <= a < |r.state.archetypes| ensures r.state.ArchetypeOk(cfg, a) {
      assert a < n ==> s.ArchetypeOk(cfg, a);
    }
    forall a: nat, p: Place | r.state.Held(a, p) && hole != Hole(a, p)
      ensures r.state.RowOk(cfg, a, p) && r.state.archetypes[a].At(p).entity != unplaced
    {
      assert s.Held(a, p) && s.RowOk(cfg, a, p);
    }
    if r.result.Ok? {
      assert r.state.ArchetypeOk(cfg, r.result.value);
    }
  }

  /** Entities where they were, after archetypes were added. */
  lemma ArchetypesGrow(s: State, t: State, e: EntityId)
    requires t == s.(archetypes := t.archetypes) && |s.archetypes| <= |t.archetypes| && t.archetypes[..|s.archetypes|] == s.archetypes
    ensures s.Placed(e) ==> t.Placed(e) && t.RowOf(e) == s.RowOf(e) && t.HomeOf(e) == s.HomeOf(e)
    ensures forall a: nat, p: Place :: s.Held(a, p) ==> t.Held(a, p) && t.archetypes[a].At(p) == s.archetypes[a].At(p)
    ensures forall a :: 0 <= a < |s.archetypes| ==> t.archetypes[a] == s.archetypes[a]
  {
    assert forall a :: 0 <= a < |s.archetypes| ==> t.archetypes[a] == t.archetypes[..|s.archetypes|][a];
  }

  /** A row for a new entity in archetype a; without memory for its chunk the entity is given up. */
  ghost function CreatedRow(cfg: Config, mem: Memory, s: State, a: nat, mask: set<nat>): Outcome<EntityId>
    requires s.table.Valid() && a < |s.archetypes| && forall t :: t in mask ==> t < |cfg.infos|
  {
    s.table.CreatedValid();
    var e, c := s.table.NewId(), s.(table := s.table.Created());
    if c.archetypes[a].NeedsChunk() && !mem.chunk then Outcome(c.(table := c.table.Destroyed(e)), Fail(OutOfMemory))
    else Outcome(c.Inserted(a, InitialRow(cfg.infos, mask, e)).(marks := Remember(s.marks, e.index, Unmarked)), Ok(e))
  }

  ghost function CreateEntityIn(cfg: Config, mem: Memory, s: State, mask: set<nat>, prototype: bool): Outcome<EntityId>
    requires s.Valid(cfg)
  {
    var found := GetOrCreateArchetype(cfg, mem, s, mask, prototype);
    if found.result.Fail? then Outcome(found.state, Fail(found.result.error))
    else
      CreatedParts(cfg, mem, s, mask, prototype);
      CreatedRow(cfg, mem, found.state, found.result.value, mask)
  }

  /** A new entity in the table, not yet in an archetype. */
  lemma CreatedParts(cfg: Config, mem: Memory, s: State, mask: set<nat>, prototype: bool)
    requires s.Valid(cfg)
    ensures s.table.Created().Valid() && s.table.Created().IsAlive(s.table.NewId())
    ensures var found := GetOrCreateArchetype(cfg, mem, s, mask, prototype);
      && found.state.table == s.table && found.state.marks == s.marks
      && found.state.(table := s.table.Created()).Fits(cfg, Full, s.table.NewId())
      && (found.result.Ok? ==>
            && (forall t :: t in mask ==> cfg.Registered(t))
            && found.state.(table := s.table.Created()).ShapeOk(cfg, found.result.value, InitialRow(cfg.infos, mask, s.table.NewId())))
  {
    var found := GetOrCreateArchetype(cfg, mem, s, mask, prototype);
    ArchetypeThere(cfg, mem, s, mask, prototype, Full, INVALID_ENTITY);
    s.table.CreatedValid();
    CreatedFits(cfg, found.state);
  }

  lemma CreatedFits(cfg: Config, s: State)
    requires s.Fits(cfg, Full, INVALID_ENTITY)
    ensures s.(table := s.table.Created()).Fits(cfg, Full, s.table.NewId())
  {
    var t := s.(table := s.table.Created());
    s.table.CreatedValid();
    forall a | 0 <= a < |t.archetypes| ensures t.ArchetypeOk(cfg, a) { assert s.ArchetypeOk(cfg, a); }
    forall a: nat, p: Place | t.Held(a, p) ensures t.RowOk(cfg, a, p) && t.archetypes[a].At(p).entity != s.table.NewId() {
      assert s.Held(a, p) && s.RowOk(cfg, a, p);
    }
  }

  function Unit(): () { () }

  function CreateMark(prototype: bool): Mark {
    if prototype then Prototype else Unmarked
  }

  /** CreateEntity, and CreatePrototype, which marks what it created. */
  ghost function Create(cfg: Config, mem: Memory, s: State, mask: set<nat>, prototype: bool): Outcome<EntityId>
    requires s.Valid(cfg)
  {
    var o := CreateEntityIn(cfg, mem, s, mask, prototype);
    if prototype && o.result.Ok? then o.(state := o.state.(marks := Remember(o.state.marks, o.result.value.index, Prototype)))
    else o
  }

  ghost function DestroyEntity(cfg: Config, s: State, e: EntityId): Outcome<()>
    requires s.Valid(cfg)
  {
    if !s.table.IsAlive(e) then Outcome(s, Fail(NotFound))
    else
      UnplacedFits(cfg, s, e);
      FilledTable(cfg, s, s.HomeOf(e), s.PlaceOf(e), e);
      var t := s.Filled(s.HomeOf(e), s.PlaceOf(e));
      Outcome(t.(table := t.table.Destroyed(e), marks := Remember(s.marks, e.index, Unmarked)), Ok(()))
  }

  /** The row of a live entity seen as a hole, the entity as one without a row. */
  lemma UnplacedFits(cfg: Config, s: State, e: EntityId)
    requires s.Fits(cfg, Full, INVALID_ENTITY) && s.table.IsAlive(e)
    ensures s.Held(s.HomeOf(e), s.PlaceOf(e)) && s.archetypes[s.HomeOf(e)].Packed()
    ensures s.Fits(cfg, Hole(s.HomeOf(e), s.PlaceOf(e)), e)
  {
    assert s.Placed(e);
    assert s.ArchetypeOk(cfg, s.HomeOf(e));
    forall a: nat, p: Place | s.Held(a, p) && !(a == s.HomeOf(e) && p == s.PlaceOf(e))
      ensures s.RowOk(cfg, a, p) && s.archetypes[a].At(p).entity != e
    {
      assert s.RowOk(cfg, a, p);
    }
    forall d: EntityId | s.table.IsAlive(d) && d != e
      ensures s.Placed(d) && (s.HomeOf(d) != s.HomeOf(e) || s.PlaceOf(d) != s.PlaceOf(e))
    {
      assert s.Placed(d);
    }
  }

  /** What taking out the row of a live entity relies on and leaves. */
  lemma DestroyParts(cfg: Config, s: State, e: EntityId)
    requires s.Valid(cfg) && s.table.IsAlive(e)
    ensures s.Held(s.HomeOf(e), s.PlaceOf(e)) && s.archetypes[s.HomeOf(e)].Packed()
    ensures var moved := s.archetypes[s.HomeOf(e)].Moved(s.PlaceOf(e)); moved.IsValid() ==> s.table.IsAlive(moved)
    ensures var t := s.Filled(s.HomeOf(e), s.PlaceOf(e)); t.table.Valid() && t.table.IsAlive(e)
  {
    UnplacedFits(cfg, s, e);
    FilledTable(cfg, s, s.HomeOf(e), s.PlaceOf(e), e);
  }

  ghost function MoveEntity(cfg: Config, mem: Memory, s: State, e: EntityId, target: set<nat>): Outcome<()>
    requires s.Valid(cfg) && s.table.IsAlive(e) && target != s.archetypes[s.HomeOf(e)].mask
  {
    var source, p := s.HomeOf(e), s.PlaceOf(e);
    var found := GetOrCreateArchetype(cfg, mem, s, target, s.archetypes[source].prototype);
    if found.result.Fail? then Outcome(found.state, Fail(found.result.error))
    else if found.state.archetypes[found.result.value].NeedsChunk() && !mem.chunk then Outcome(found.state, Fail(OutOfMemory))
    else
      MovedParts(cfg, mem, s, e, target);
      var row := Share(InitialRow(cfg.infos, target, e), s.RowOf(e));
      Outcome(found.state.Inserted(found.result.value, row).Filled(source, p), Ok(()))
  }

  lemma MovedParts(cfg: Config, mem: Memory, s: State, e: EntityId, target: set<nat>)
    requires s.Valid(cfg) && s.table.IsAlive(e) && target != s.archetypes[s.HomeOf(e)].mask
    ensures var found := GetOrCreateArchetype(cfg, mem, s, target, s.archetypes[s.HomeOf(e)].prototype);
      found.result.Ok? ==>
        && (forall t :: t in target ==> cfg.Registered(t))
        && var row, a, t := Share(InitialRow(cfg.infos, target, e), s.RowOf(e)), found.result.value, found.state;
           && t.Fits(cfg, Hole(s.HomeOf(e), s.PlaceOf(e)), e) && t.ShapeOk(cfg, a, row)
           && t.Inserted(a, row).Fits(cfg, Hole(s.HomeOf(e), s.PlaceOf(e)), INVALID_ENTITY)
           && t.Inserted(a, row).archetypes[s.HomeOf(e)].Packed()
  {
    var found := GetOrCreateArchetype(cfg, mem, s, target, s.archetypes[s.HomeOf(e)].prototype);
    UnplacedFits(cfg, s, e);
    if found.result.Ok? {
      ArchetypeThere(cfg, mem, s, target, s.archetypes[s.HomeOf(e)].prototype, Hole(s.HomeOf(e), s.PlaceOf(e)), e);
      assert s.RowOk(cfg, s.HomeOf(e), s.PlaceOf(e));
      var row := Share(InitialRow(cfg.infos, target, e), s.RowOf(e));
      InsertedFits(cfg, found.state, Hole(s.HomeOf(e), s.PlaceOf(e)), found.result.value, row);
      assert found.state.Inserted(found.result.value, row).ArchetypeOk(cfg, s.HomeOf(e));
    }
  }

  /** What the steps of a move rely on. */
  lemma MoveSteps(cfg: Config, mem: Memory, s: State, e: EntityId, target: set<nat>)
    requires s.Valid(cfg) && s.table.IsAlive(e) && target != s.archetypes[s.HomeOf(e)].mask
    ensures s.Held(s.HomeOf(e), s.PlaceOf(e)) && s.Placed(e)
    ensures var found := GetOrCreateArchetype(cfg, mem, s, target, s.archetypes[s.HomeOf(e)].prototype);
      found.result.Ok? ==>
        && (forall t :: t in target ==> t < |cfg.infos|) && found.state.table == s.table
        && var row, a := Share(InitialRow(cfg.infos, target, e), s.RowOf(e)), found.result.value;
           var t := found.state.Inserted(a, row);
           && t.Held(s.HomeOf(e), s.PlaceOf(e)) && t.archetypes[s.HomeOf(e)].Packed()
           && (t.archetypes[s.HomeOf(e)].Moved(s.PlaceOf(e)).IsValid() ==> t.table.IsAlive(t.archetypes[s.HomeOf(e)].Moved(s.PlaceOf(e))))
  {
    var a, p := s.HomeOf(e), s.PlaceOf(e);
    var found := GetOrCreateArchetype(cfg, mem, s, target, s.archetypes[a].prototype);
    UnplacedFits(cfg, s, e);
    if found.result.Ok? {
      ArchetypeThere(cfg, mem, s, target, s.archetypes[a].prototype, Hole(a, p), e);
      MovedParts(cfg, mem, s, e, target);
      var row := Share(InitialRow(cfg.infos, target, e), s.RowOf(e));
      FilledTable(cfg, found.state.Inserted(found.result.value, row), a, p, INVALID_ENTITY);
    }
  }

  ghost function AddComponent(cfg: Config, mem: Memory, s: State, e: EntityId, component: nat): Outcome<()>
    requires s.Valid(cfg)
  {
    if !s.table.IsAlive(e) then Outcome(s, Fail(NotFound))
    else if !cfg.Registered(component) then Outcome(s, Fail(InvalidArgument))
    else if s.MarkOf(e) == Locked then Outcome(s, Fail(InvalidState))
    else if component in s.archetypes[s.HomeOf(e)].mask then Outcome(s, Fail(AlreadyExists))
    else MoveEntity(cfg, mem, s, e, s.archetypes[s.HomeOf(e)].mask + {component})
  }

  ghost function RemoveComponent(cfg: Config, mem: Memory, s: State, e: EntityId, component: nat): Outcome<()>
    requires s.Valid(cfg)
  {
    if !s.table.IsAlive(e) then Outcome(s, Fail(NotFound))
    else if s.MarkOf(e) == Locked then Outcome(s, Fail(InvalidState))
    else if component !in s.archetypes[s.HomeOf(e)].mask then Outcome(s, Fail(NotFound))
    else MoveEntity(cfg, mem, s, e, s.archetypes[s.HomeOf(e)].mask - {component})
  }

  ghost function SetMark(cfg: Config, s: State, e: EntityId, mark: Mark): Outcome<()>
    requires s.Valid(cfg)
  {
    if !s.table.IsAlive(e) then Outcome(s, Fail(NotFound))
    else if mark == Prototype || s.MarkOf(e) == Prototype then Outcome(s, Fail(InvalidArgument))
    else Outcome(s.(marks := Remember(s.marks, e.index, mark)), Ok(()))
  }

  /** GetComponentForWrite and the copy over what it points to. */
  ghost function SetComponent(cfg: Config, s: State, e: EntityId, component: nat, value: seq<byte>): State
    requires s.Valid(cfg) && s.table.IsAlive(e)
  {
    var row := s.RowOf(e);
    s.Rewritten(s.HomeOf(e), s.PlaceOf(e), if component in row.values then row.(values := row.values[component := value]) else row)
  }

  ghost function SetEnabled(cfg: Config, s: State, e: EntityId, component: nat, enabled: bool): State
    requires s.Valid(cfg)
  {
    if !s.table.IsAlive(e) || component !in s.RowOf(e).enabled then s
    else s.Rewritten(s.HomeOf(e), s.PlaceOf(e), s.RowOf(e).(enabled := s.RowOf(e).enabled[component := enabled]))
  }

  ghost function CloneEntity(cfg: Config, mem: Memory, s: State, source: EntityId): Outcome<EntityId>
    requires s.Valid(cfg)
  {
    if !s.table.IsAlive(source) then Outcome(s, Fail(NotFound))
    else
      var o := CreateEntityIn(cfg, mem, s, s.archetypes[s.HomeOf(source)].mask, false);
      if o.result.Fail? then o
      else
        var e := o.result.value;
        CreateKeeps(cfg, mem, s, s.archetypes[s.HomeOf(source)].mask, false);
        var t := o.state.Rewritten(o.state.HomeOf(e), o.state.PlaceOf(e), Share(o.state.RowOf(e), s.RowOf(source)));
        Outcome(if s.MarkOf(source) == Prototype then t.(marks := Remember(t.marks, e.index, Locked)) else t, Ok(e))
  }

  // --- views ----------------------------------------------------------------------------------------

  lemma MapChanged(v: map<EntityId, Entity>, w: map<EntityId, Entity>, e: EntityId)
    requires forall d: EntityId :: d != e ==> (d in w <==> d in v)
    requires forall d: EntityId :: d != e && d in v ==> w[d] == v[d]
    ensures e in w ==> w == v[e := w[e]]
    ensures e !in w ==> w == v - {e}
    ensures e !in w && e !in v ==> w == v
  {}

  lemma ViewAt(s: State)
    requires s.LivePlaced()
    ensures forall d: EntityId :: d in s.View() <==> s.table.IsAlive(d)
    ensures forall d: EntityId :: s.table.IsAlive(d) ==> s.Placed(d) && s.View()[d] == s.EntityOf(d)
  {
    s.LiveAre();
  }

  /** The storage changed for one entity only. */
  lemma ViewChanged(s: State, t: State, e: EntityId)
    requires s.LivePlaced() && t.LivePlaced() && OthersStay(s, t, e)
    requires forall d: EntityId :: d != e ==> (t.table.IsAlive(d) <==> s.table.IsAlive(d))
    requires forall d: EntityId :: d != e && s.table.IsAlive(d) ==> t.MarkOf(d) == s.MarkOf(d)
    ensures t.table.IsAlive(e) ==> t.Placed(e) && t.View() == s.View()[e := t.EntityOf(e)]
    ensures !t.table.IsAlive(e) ==> t.View() == s.View() - {e}
    ensures !t.table.IsAlive(e) && !s.table.IsAlive(e) ==> t.View() == s.View()
  {
    ViewAt(s);
    ViewAt(t);
    MapChanged(s.View(), t.View(), e);
  }

  lemma DifferentIndex(t: Table, d: EntityId, e: EntityId)
    requires t.IsAlive(d) && t.IsAlive(e) && d != e
    ensures d.index != e.index
  {}

  // --- creating -------------------------------------------------------------------------------------

  /** Entities keep their rows while archetypes are added and the table grows. */
  lemma CreatedOthers(cfg: Config, mem: Memory, s: State, mask: set<nat>, prototype: bool)
    requires s.Valid(cfg)
    ensures OthersStay(s, GetOrCreateArchetype(cfg, mem, s, mask, prototype).state.(table := s.table.Created()), s.table.NewId())
  {
    var found := GetOrCreateArchetype(cfg, mem, s, mask, prototype);
    ArchetypeThere(cfg, mem, s, mask, prototype, Full, INVALID_ENTITY);
    s.table.CreatedValid();
    forall d: EntityId | s.table.IsAlive(d)
      ensures var c := found.state.(table := s.table.Created());
        s.Placed(d) && c.Placed(d) && c.RowOf(d) == s.RowOf(d) && c.HomeOf(d) == s.HomeOf(d)
    {
      ArchetypesGrow(s, found.state, d);
    }
  }

  lemma OthersThrough(s: State, t: State, u: State, e: EntityId)
    requires OthersStay(s, t, e) && OthersStay(t, u, e)
    requires forall d: EntityId :: d != e && s.table.IsAlive(d) ==> t.table.IsAlive(d)
    ensures OthersStay(s, u, e)
  {}

  lemma CreateKeeps(cfg: Config, mem: Memory, s: State, mask: set<nat>, prototype: bool)
    requires s.Valid(cfg)
    ensures var o := CreateEntityIn(cfg, mem, s, mask, prototype);
      && o.state.Fits(cfg, Full, INVALID_ENTITY)
      && OthersStay(s, o.state, s.table.NewId())
      && (o.result.Ok? ==> IsNew(cfg, s, o.state, o.result.value, mask, prototype))
  {
    var found := GetOrCreateArchetype(cfg, mem, s, mask, prototype);
    ArchetypeThere(cfg, mem, s, mask, prototype, Full, INVALID_ENTITY);
    CreatedParts(cfg, mem, s, mask, prototype);
    CreatedOthers(cfg, mem, s, mask, prototype);
    s.table.CreatedValid();
    if found.result.Ok? {
      var e, a, c := s.table.NewId(), found.result.value, found.state.(table := s.table.Created());
      if c.archetypes[a].NeedsChunk() && !mem.chunk {
        FailedCreate(cfg, c, e);
        OthersThrough(s, c, c.(table := c.table.Destroyed(e)), e);
      } else {
        InsertKeeps(cfg, s, c, a, InitialRow(cfg.infos, mask, e));
      }
    } else {
      assert found.state == s;
    }
  }

  /** The entity an operation created: not alive before, and as InitializeRow leaves it. */
  ghost predicate IsNew(cfg: Config, s: State, t: State, e: EntityId, mask: set<nat>, prototype: bool)
    requires s.table.Valid()
  {
    && e == s.table.NewId() && !s.table.IsAlive(e) && t.table.IsAlive(e)
    && (forall x :: x in mask ==> cfg.Registered(x))
    && t.Placed(e) && t.RowOf(e) == InitialRow(cfg.infos, mask, e)
    && t.archetypes[t.HomeOf(e)].prototype == prototype && t.archetypes[t.HomeOf(e)].mask == mask
  }

  lemma InsertKeeps(cfg: Config, s: State, c: State, a: nat, row: Row)
    requires c.Fits(cfg, Full, row.entity) && c.table.IsAlive(row.entity) && a < |c.archetypes| && c.ShapeOk(cfg, a, row)
    requires OthersStay(s, c, row.entity) && forall d: EntityId :: d != row.entity && s.table.IsAlive(d) ==> c.table.IsAlive(d)
    ensures var t := c.Inserted(a, row).(marks := Remember(s.marks, row.entity.index, Unmarked));
      && t.Fits(cfg, Full, INVALID_ENTITY) && OthersStay(s, t, row.entity) && t.table.IsAlive(row.entity)
      && t.Placed(row.entity) && t.RowOf(row.entity) == row && t.HomeOf(row.entity) == a
      && t.archetypes[a].prototype == c.archetypes[a].prototype && t.archetypes[a].mask == c.archetypes[a].mask
  {
    InsertedFits(cfg, c, Full, a, row);
    RemarkedFits(cfg, c.Inserted(a, row), Remember(s.marks, row.entity.index, Unmarked), Full, INVALID_ENTITY);
    OthersThrough(s, c, c.Inserted(a, row), row.entity);
  }

  lemma CreateTable(cfg: Config, mem: Memory, s: State, mask: set<nat>, prototype: bool)
    requires s.Valid(cfg)
    ensures var t, e := CreateEntityIn(cfg, mem, s, mask, prototype).state, s.table.NewId();
      && (forall d: EntityId :: d != e ==> (t.table.IsAlive(d) <==> s.table.IsAlive(d)))
      && (CreateEntityIn(cfg, mem, s, mask, prototype).result.Fail? ==> !t.table.IsAlive(e))
      && !s.table.IsAlive(e) && |s.table.slots| <= |t.table.slots|
      && (forall i :: 0 <= i < |s.table.slots| && i != e.index ==> t.table.slots[i].alive == s.table.slots[i].alive)
      && (e.index < |s.table.slots| ==> !s.table.slots[e.index].alive)
  {
    ArchetypeThere(cfg, mem, s, mask, prototype, Full, INVALID_ENTITY);
    CreatedParts(cfg, mem, s, mask, prototype);
    s.table.CreatedValid();
    s.table.Created().DestroyedValid(s.table.NewId());
  }

  /** Destroying an entity that has no row. */
  lemma FailedCreate(cfg: Config, c: State, e: EntityId)
    requires c.Fits(cfg, Full, e) && c.table.IsAlive(e)
    ensures c.(table := c.table.Destroyed(e)).Fits(cfg, Full, INVALID_ENTITY)
    ensures OthersStay(c, c.(table := c.table.Destroyed(e)), e)
  {
    var t := c.(table := c.table.Destroyed(e));
    c.table.DestroyedValid(e);
    forall a | 0 <= a < |t.archetypes| ensures t.ArchetypeOk(cfg, a) { assert c.ArchetypeOk(cfg, a); }
    forall a: nat, p: Place | t.Held(a, p) ensures t.RowOk(cfg, a, p) && t.archetypes[a].At(p).entity != INVALID_ENTITY {
      assert c.Held(a, p) && c.RowOk(cfg, a, p);
    }
    forall d: EntityId | c.table.IsAlive(d) && d != e
      ensures c.Placed(d) && t.Placed(d) && t.RowOf(d) == c.RowOf(d) && t.HomeOf(d) == c.HomeOf(d)
    {
      DifferentIndex(c.table, d, e);
    }
  }

  lemma CreateMarks(cfg: Config, mem: Memory, s: State, mask: set<nat>, prototype: bool, i: nat)
    requires s.Valid(cfg)
    ensures var o := Create(cfg, mem, s, mask, prototype);
      MarkAt(o.state.marks, i) == if o.result.Ok? && i == s.table.NewId().index then CreateMark(prototype) else MarkAt(s.marks, i)
  {
    var e := s.table.NewId();
    RememberAt(s.marks, e.index, Unmarked, i);
    RememberAt(Remember(s.marks, e.index, Unmarked), e.index, Prototype, i);
  }

  lemma CreateValid(cfg: Config, mem: Memory, s: State, mask: set<nat>, prototype: bool)
    requires s.Valid(cfg)
    ensures Create(cfg, mem, s, mask, prototype).state.Valid(cfg)
  {
    CreateKeeps(cfg, mem, s, mask, prototype);
    CreateTable(cfg, mem, s, mask, prototype);
    var o, e := Create(cfg, mem, s, mask, prototype), s.table.NewId();
    var u := CreateEntityIn(cfg, mem, s, mask, prototype).state;
    RemarkedFits(cfg, u, o.state.marks, Full, INVALID_ENTITY);
    forall d: EntityId | o.state.table.IsAlive(d) ensures o.state.MarkOk(d) {
      CreateMarks(cfg, mem, s, mask, prototype, d.index);
      if d != e {
        assert s.table.IsAlive(d) && s.MarkOk(d);
        CreateArchetypes(cfg, mem, s, mask, prototype, s.HomeOf(d));
      }
    }
    forall i: nat | MarkAt(o.state.marks, i) != Unmarked ensures i < |o.state.table.slots| && o.state.table.slots[i].alive {
      CreateMarks(cfg, mem, s, mask, prototype, i);
    }
  }

  lemma CreateArchetypes(cfg: Config, mem: Memory, s: State, mask: set<nat>, prototype: bool, a: nat)
    requires s.Valid(cfg) && a < |s.archetypes|
    ensures a < |CreateEntityIn(cfg, mem, s, mask, prototype).state.archetypes|
    ensures CreateEntityIn(cfg, mem, s, mask, prototype).state.archetypes[a].prototype == s.archetypes[a].prototype
  {
    ArchetypeThere(cfg, mem, s, mask, prototype, Full, INVALID_ENTITY);
    ArchetypesGrow(s, GetOrCreateArchetype(cfg, mem, s, mask, prototype).state, s.table.NewId());
  }
}
