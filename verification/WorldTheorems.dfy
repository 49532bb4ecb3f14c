/** The storage of a world refines a map from live entities to their components: every operation
    keeps the storage in order and changes the map exactly where it says. */
module WorldTheorems {
  import opened Lists
  import opened Bytes
  import opened Results
  import opened Entities
  import opened Archetypes
  import opened WorldStates
  import opened WorldOperations

  // --- creating and destroying ----------------------------------------------------------------------

  function Fresh(cfg: Config, mask: set<nat>, mark: Mark): Entity {
    Entity(map t | t in mask && cfg.HasColumn(t) :: cfg.infos[t].initial, map t | t in mask :: true, mark)
  }

  /** When an operation that needs an archetype for these components goes through: always when there is
      memory and the chunk layout can be computed; and which error it gives otherwise. */
  ghost predicate Decided<T>(cfg: Config, mem: Memory, target: set<nat>, r: Result<T>) {
    && (mem.archetype && mem.chunk && cfg.Capacity(target) > 0 ==> r.Ok?)
    && (r == Fail(InvalidArgument) <==> cfg.Capacity(target) == 0)
    && (r == Fail(OutOfMemory) ==> cfg.Capacity(target) > 0 && (!mem.archetype || !mem.chunk))
    && (r.Fail? ==> r.error == InvalidArgument || r.error == OutOfMemory)
  }

  /** The storage may refuse a creation or a new composition for one of two reasons only: there is no
      chunk layout for the components, or no memory. It always refuses for the first, and never when
      there is memory and a layout. */
  predicate Granted(cfg: Config, mem: Memory, wanted: Option<set<nat>>, ok: bool) {
    wanted.Some? ==>
      && (cfg.Capacity(wanted.value) == 0 ==> !ok)
      && (mem.archetype && mem.chunk && cfg.Capacity(wanted.value) > 0 ==> ok)
  }

  /** Archetypes that exist have a layout. */
  lemma ArchetypeDecided(cfg: Config, mem: Memory, s: State, mask: set<nat>, prototype: bool)
    requires s.ArchetypesOk(cfg)
    ensures Decided(cfg, mem, mask, GetOrCreateArchetype(cfg, mem, s, mask, prototype).result)
  {
    var found := FindFrom(s.archetypes, mask, prototype, 0);
    if found < |s.archetypes| {
      assert s.ArchetypeOk(cfg, found);
    }
  }

  lemma CreateDecided(cfg: Config, mem: Memory, s: State, mask: set<nat>, prototype: bool)
    requires s.Valid(cfg)
    ensures Decided(cfg, mem, mask, Create(cfg, mem, s, mask, prototype).result)
  {
    ArchetypeDecided(cfg, mem, s, mask, prototype);
    CreatedParts(cfg, mem, s, mask, prototype);
  }

  lemma MoveDecided(cfg: Config, mem: Memory, s: State, e: EntityId, target: set<nat>)
    requires s.Valid(cfg) && s.table.IsAlive(e) && target != s.archetypes[s.HomeOf(e)].mask
    ensures Decided(cfg, mem, target, MoveEntity(cfg, mem, s, e, target).result)
  {
    ArchetypeDecided(cfg, mem, s, target, s.archetypes[s.HomeOf(e)].prototype);
  }

  /** A new handle, at its defaults; a failure leaves the map alone, although it may use up a
      generation. */
  lemma CreateRefines(cfg: Config, mem: Memory, s: State, mask: set<nat>, prototype: bool)
    requires s.Valid(cfg)
    ensures var o := Create(cfg, mem, s, mask, prototype);
      && o.state.Valid(cfg) && s.LivePlaced() && o.state.LivePlaced()
      && (o.result.Ok? ==>
            && o.result.value !in s.View()
            && o.state.View() == s.View()[o.result.value := Fresh(cfg, mask, CreateMark(prototype))])
      && (o.result.Fail? ==> o.state.View() == s.View())
      && Decided(cfg, mem, mask, o.result)
  {
    var o, e := Create(cfg, mem, s, mask, prototype), s.table.NewId();
    CreateDecided(cfg, mem, s, mask, prototype);
    CreateValid(cfg, mem, s, mask, prototype);
    CreateTable(cfg, mem, s, mask, prototype);
    CreateOthers(cfg, mem, s, mask, prototype);
    s.ValidPlaced(cfg);
    o.state.ValidPlaced(cfg);
    ViewChanged(s, o.state, e);
  }

  lemma CreateOthers(cfg: Config, mem: Memory, s: State, mask: set<nat>, prototype: bool)
    requires s.Valid(cfg)
    ensures var o, e := Create(cfg, mem, s, mask, prototype), s.table.NewId();
      && OthersStay(s, o.state, e)
      && (forall d: EntityId :: d != e && s.table.IsAlive(d) ==> o.state.MarkOf(d) == s.MarkOf(d))
      && (o.result.Ok? ==>
            && o.result.value == e && o.state.table.IsAlive(e) && o.state.Placed(e)
            && o.state.EntityOf(e) == Fresh(cfg, mask, CreateMark(prototype)))
  {
    var o, e := Create(cfg, mem, s, mask, prototype), s.table.NewId();
    var u := CreateEntityIn(cfg, mem, s, mask, prototype).state;
    CreateKeeps(cfg, mem, s, mask, prototype);
    CreateTable(cfg, mem, s, mask, prototype);
    RemarkedFits(cfg, u, o.state.marks, Full, INVALID_ENTITY);
    forall d: EntityId | d != e && s.table.IsAlive(d) ensures o.state.MarkOf(d) == s.MarkOf(d) {
      CreateMarks(cfg, mem, s, mask, prototype, d.index);
    }
    CreateMarks(cfg, mem, s, mask, prototype, e.index);
  }

  lemma DestroyValid(cfg: Config, s: State, e: EntityId)
    requires s.Valid(cfg) && s.table.IsAlive(e)
    ensures DestroyEntity(cfg, s, e).state.Valid(cfg) && OthersStay(s, DestroyEntity(cfg, s, e).state, e)
    ensures !DestroyEntity(cfg, s, e).state.table.IsAlive(e)
    ensures forall d: EntityId :: d != e ==>
      (DestroyEntity(cfg, s, e).state.table.IsAlive(d) <==> s.table.IsAlive(d)) &&
      (s.table.IsAlive(d) ==> DestroyEntity(cfg, s, e).state.MarkOf(d) == s.MarkOf(d))
  {
    var a, p, o := s.HomeOf(e), s.PlaceOf(e), DestroyEntity(cfg, s, e);
    UnplacedFits(cfg, s, e);
    FilledTable(cfg, s, a, p, e);
    FilledFits(cfg, s, a, p, e);
    var t := s.Filled(a, p);
    var u := t.(table := t.table.Destroyed(e));
    FailedCreate(cfg, t, e);
    t.table.DestroyedValid(e);
    RemarkedFits(cfg, u, o.state.marks, Full, INVALID_ENTITY);
    OthersThrough(s, t, u, e);
    forall i: nat ensures MarkAt(o.state.marks, i) == if i == e.index then Unmarked else MarkAt(s.marks, i) {
      RememberAt(s.marks, e.index, Unmarked, i);
    }
    forall d: EntityId | o.state.table.IsAlive(d) ensures o.state.MarkOk(d) {
      assert s.MarkOk(d);
    }
  }

  lemma DestroyRefines(cfg: Config, s: State, e: EntityId)
    requires s.Valid(cfg)
    ensures var o := DestroyEntity(cfg, s, e);
      && o.state.Valid(cfg) && s.LivePlaced() && o.state.LivePlaced() && o.state.View() == s.View() - {e}
      && (o.result == if e in s.View() then Ok(()) else Fail(NotFound))
  {
    s.ValidPlaced(cfg);
    if s.table.IsAlive(e) {
      DestroyValid(cfg, s, e);
      DestroyEntity(cfg, s, e).state.ValidPlaced(cfg);
      ViewChanged(s, DestroyEntity(cfg, s, e).state, e);
    }
  }

  // --- moving between archetypes --------------------------------------------------------------------

  function WithMask(cfg: Config, x: Entity, target: set<nat>): Entity {
    Entity(map t | t in target && cfg.HasColumn(t) :: if t in x.values then x.values[t] else cfg.infos[t].initial,
           map t | t in target :: if t in x.enabled then x.enabled[t] else true, x.mark)
  }

  /** The storage while the entity has its new row and still its old one. */
  ghost predicate InsertedWell(cfg: Config, s: State, t: State, e: EntityId, row: Row)
    requires s.Placed(e)
  {
    && t.Fits(cfg, Hole(s.HomeOf(e), s.PlaceOf(e)), INVALID_ENTITY) && OthersStay(s, t, e)
    && t.Placed(e) && t.RowOf(e) == row && t.archetypes[t.HomeOf(e)].prototype == s.archetypes[s.HomeOf(e)].prototype
    && (forall d: EntityId :: t.table.IsAlive(d) <==> s.table.IsAlive(d))
    && t.marks == s.marks && SameKinds(s, t)
  }

  lemma InsertMoves(cfg: Config, s: State, g: State, e: EntityId, a: nat, row: Row)
    requires s.Placed(e) && s.table.IsAlive(e) && row.entity == e && g == s.(archetypes := g.archetypes)
    requires |s.archetypes| <= |g.archetypes| && g.archetypes[..|s.archetypes|] == s.archetypes
    requires g.Fits(cfg, Hole(s.HomeOf(e), s.PlaceOf(e)), e) && a < |g.archetypes| && g.ShapeOk(cfg, a, row)
    requires forall d: EntityId :: s.table.IsAlive(d) ==> s.Placed(d)
    requires g.archetypes[a].prototype == s.archetypes[s.HomeOf(e)].prototype
    ensures InsertedWell(cfg, s, g.Inserted(a, row), e, row)
  {
    var t := g.Inserted(a, row);
    InsertedFits(cfg, g, Hole(s.HomeOf(e), s.PlaceOf(e)), a, row);
    forall d: EntityId | s.table.IsAlive(d) && d != e
      ensures s.Placed(d) && t.Placed(d) && t.RowOf(d) == s.RowOf(d) && t.HomeOf(d) == s.HomeOf(d)
    {
      ArchetypesGrow(s, g, d);
    }
    assert SameKinds(s, t) by {
      ArchetypesGrow(s, g, e);
    }
  }

  lemma MovedInserted(cfg: Config, mem: Memory, s: State, e: EntityId, target: set<nat>)
    requires s.Valid(cfg) && s.table.IsAlive(e) && target != s.archetypes[s.HomeOf(e)].mask
    requires MoveEntity(cfg, mem, s, e, target).result.Ok?
    ensures var found := GetOrCreateArchetype(cfg, mem, s, target, s.archetypes[s.HomeOf(e)].prototype);
      && found.result.Ok? && (forall t :: t in target ==> t < |cfg.infos|)
      && var row := Share(InitialRow(cfg.infos, target, e), s.RowOf(e));
         InsertedWell(cfg, s, found.state.Inserted(found.result.value, row), e, row)
  {
    var a, p := s.HomeOf(e), s.PlaceOf(e);
    var found := GetOrCreateArchetype(cfg, mem, s, target, s.archetypes[a].prototype);
    UnplacedFits(cfg, s, e);
    ArchetypeThere(cfg, mem, s, target, s.archetypes[a].prototype, Hole(a, p), e);
    MovedParts(cfg, mem, s, e, target);
    InsertMoves(cfg, s, found.state, e, found.result.value, Share(InitialRow(cfg.infos, target, e), s.RowOf(e)));
  }

  lemma SharedEntity(cfg: Config, s: State, e: EntityId, target: set<nat>)
    requires s.Placed(e) && forall t :: t in target ==> t < |cfg.infos|
    ensures var row := Share(InitialRow(cfg.infos, target, e), s.RowOf(e));
      Entity(row.values, row.enabled, s.MarkOf(e)) == WithMask(cfg, s.EntityOf(e), target)
  {}

  /** What the move of an entity leaves: everything in order, the others where they were. */
  ghost predicate MovedWell(cfg: Config, s: State, t: State, e: EntityId)
    requires s.Placed(e)
  {
    && t.Fits(cfg, Full, INVALID_ENTITY) && OthersStay(s, t, e)
    && t.Placed(e) && t.archetypes[t.HomeOf(e)].prototype == s.archetypes[s.HomeOf(e)].prototype
    && (forall d: EntityId :: t.table.IsAlive(d) <==> s.table.IsAlive(d))
    && t.marks == s.marks && SameKinds(s, t)
  }

  /** The same slots are alive, and archetypes were at most added. */
  predicate SameKinds(s: State, t: State) {
    && |t.table.slots| == |s.table.slots| && |s.archetypes| <= |t.archetypes|
    && (forall i :: 0 <= i < |s.table.slots| ==> t.table.slots[i].alive == s.table.slots[i].alive)
    && (forall a :: 0 <= a < |s.archetypes| ==> t.archetypes[a].prototype == s.archetypes[a].prototype)
  }

  lemma FilledMoves(cfg: Config, s: State, t: State, e: EntityId, row: Row)
    requires s.Placed(e) && s.table.IsAlive(e) && InsertedWell(cfg, s, t, e, row)
    ensures t.archetypes[s.HomeOf(e)].Packed() && MovedWell(cfg, s, t.Filled(s.HomeOf(e), s.PlaceOf(e)), e)
    ensures t.Filled(s.HomeOf(e), s.PlaceOf(e)).RowOf(e) == row
  {
    var a, p := s.HomeOf(e), s.PlaceOf(e);
    FilledTable(cfg, t, a, p, INVALID_ENTITY);
    FilledFits(cfg, t, a, p, INVALID_ENTITY);
    OthersThrough(s, t, t.Filled(a, p), e);
    assert e != INVALID_ENTITY;
  }

  lemma MoveKeeps(cfg: Config, mem: Memory, s: State, e: EntityId, target: set<nat>)
    requires s.Valid(cfg) && s.table.IsAlive(e) && target != s.archetypes[s.HomeOf(e)].mask
    requires MoveEntity(cfg, mem, s, e, target).result.Ok?
    ensures MovedWell(cfg, s, MoveEntity(cfg, mem, s, e, target).state, e)
    ensures MoveEntity(cfg, mem, s, e, target).state.EntityOf(e) == WithMask(cfg, s.EntityOf(e), target)
  {
    var a, p := s.HomeOf(e), s.PlaceOf(e);
    var found := GetOrCreateArchetype(cfg, mem, s, target, s.archetypes[a].prototype);
    MovedInserted(cfg, mem, s, e, target);
    SharedEntity(cfg, s, e, target);
    var row := Share(InitialRow(cfg.infos, target, e), s.RowOf(e));
    FilledMoves(cfg, s, found.state.Inserted(found.result.value, row), e, row);
  }

  lemma MovedValid(cfg: Config, s: State, t: State, e: EntityId)
    requires s.Valid(cfg) && s.table.IsAlive(e) && MovedWell(cfg, s, t, e)
    ensures t.Valid(cfg) && s.LivePlaced() && t.LivePlaced() && t.View() == s.View()[e := t.EntityOf(e)]
  {
    forall d: EntityId | t.table.IsAlive(d) ensures t.MarkOk(d) {
      assert s.MarkOk(d);
    }
    s.ValidPlaced(cfg);
    t.ValidPlaced(cfg);
    ViewChanged(s, t, e);
  }

  lemma MoveRefines(cfg: Config, mem: Memory, s: State, e: EntityId, target: set<nat>)
    requires s.Valid(cfg) && s.table.IsAlive(e) && target != s.archetypes[s.HomeOf(e)].mask
    ensures var o := MoveEntity(cfg, mem, s, e, target);
      && o.state.Valid(cfg) && s.LivePlaced() && o.state.LivePlaced() && e in s.View()
      && (o.result.Ok? ==> o.state.View() == s.View()[e := WithMask(cfg, s.View()[e], target)])
      && (o.result.Fail? ==> o.state.View() == s.View())
      && Decided(cfg, mem, target, o.result)
  {
    MoveDecided(cfg, mem, s, e, target);
    hide State.Valid, MovedWell, Storage.Packed, Decided;
    var o := MoveEntity(cfg, mem, s, e, target);
    s.ValidPlaced(cfg);
    if o.result.Ok? {
      MoveKeeps(cfg, mem, s, e, target);
      MovedValid(cfg, s, o.state, e);
    } else {
      FailedMove(cfg, mem, s, target, s.archetypes[s.HomeOf(e)].prototype);
    }
  }

  /** An archetype may have been added; nothing else changed. */
  lemma FailedMove(cfg: Config, mem: Memory, s: State, mask: set<nat>, prototype: bool)
    requires s.Valid(cfg)
    ensures var t := GetOrCreateArchetype(cfg, mem, s, mask, prototype).state;
      t.Valid(cfg) && s.LivePlaced() && t.LivePlaced() && t.View() == s.View()
  {
    var t := GetOrCreateArchetype(cfg, mem, s, mask, prototype).state;
    ArchetypeThere(cfg, mem, s, mask, prototype, Full, INVALID_ENTITY);
    forall d: EntityId | s.table.IsAlive(d) ensures s.Placed(d) && t.Placed(d) && t.RowOf(d) == s.RowOf(d) && t.HomeOf(d) == s.HomeOf(d) && t.MarkOk(d) {
      ArchetypesGrow(s, t, d);
      assert s.MarkOk(d);
    }
    s.ValidPlaced(cfg);
    t.ValidPlaced(cfg);
    ViewChanged(s, t, INVALID_ENTITY);
  }

  // --- components, marks and clones -----------------------------------------------------------------

  /** AddComponent: the type comes at its default and enabled; everything else stays. */
  lemma AddRefines(cfg: Config, mem: Memory, s: State, e: EntityId, x: nat)
    requires s.Valid(cfg)
    ensures var o := AddComponent(cfg, mem, s, e, x);
      && o.state.Valid(cfg) && s.LivePlaced() && o.state.LivePlaced()
      && (o.result.Ok? ==> e in s.View() && o.state.View() == s.View()[e := Added(cfg, s.View()[e], x)])
      && (o.result.Fail? ==> o.state.View() == s.View())
      && (o.result == Fail(NotFound) <==> e !in s.View())
      && (o.result == Fail(InvalidArgument) <==>
            e in s.View() && (!cfg.Registered(x) || (s.View()[e].mark != Locked && x !in s.View()[e].enabled
                                                     && cfg.Capacity(s.View()[e].enabled.Keys + {x}) == 0)))
      && (o.result == Fail(InvalidState) <==> e in s.View() && cfg.Registered(x) && s.View()[e].mark == Locked)
      && (o.result == Fail(AlreadyExists) <==>
            e in s.View() && cfg.Registered(x) && s.View()[e].mark != Locked && x in s.View()[e].enabled)
      && (e in s.View() && cfg.Registered(x) && s.View()[e].mark != Locked && x !in s.View()[e].enabled ==>
            Decided(cfg, mem, s.View()[e].enabled.Keys + {x}, o.result))
  {
    s.ValidPlaced(cfg);
    ViewAt(s);
    if s.table.IsAlive(e) {
      LiveShape(cfg, s, e);
      if cfg.Registered(x) && s.MarkOf(e) != Locked && x !in s.archetypes[s.HomeOf(e)].mask {
        MoveRefines(cfg, mem, s, e, s.archetypes[s.HomeOf(e)].mask + {x});
        AddedWithMask(cfg, s.EntityOf(e), s.archetypes[s.HomeOf(e)].mask, x);
      }
    }
  }

  function Added(cfg: Config, x: Entity, component: nat): Entity {
    x.(values := if cfg.HasColumn(component) then x.values[component := cfg.infos[component].initial] else x.values,
       enabled := x.enabled[component := true])
  }

  function Removed(x: Entity, component: nat): Entity {
    x.(values := x.values - {component}, enabled := x.enabled - {component})
  }

  /** Which components an entity has: bits for all of its mask, values for the columns. */
  predicate Shaped(cfg: Config, x: Entity, mask: set<nat>) {
    && x.enabled.Keys == mask && x.values.Keys == (set t | t in mask && cfg.HasColumn(t))
    && forall t :: t in x.values ==> |x.values[t]| == cfg.Size(t)
  }

  lemma LiveShape(cfg: Config, s: State, e: EntityId)
    requires s.Valid(cfg) && s.table.IsAlive(e)
    ensures s.Placed(e) && Shaped(cfg, s.EntityOf(e), s.archetypes[s.HomeOf(e)].mask)
  {
    assert s.RowOk(cfg, s.HomeOf(e), s.PlaceOf(e));
  }

  lemma AddedWithMask(cfg: Config, x: Entity, mask: set<nat>, component: nat)
    requires Shaped(cfg, x, mask) && component !in mask
    ensures WithMask(cfg, x, mask + {component}) == Added(cfg, x, component)
  {
    var y, z := WithMask(cfg, x, mask + {component}), Added(cfg, x, component);
    assert y.values == z.values;
    assert y.enabled == z.enabled;
  }

  lemma RemovedWithMask(cfg: Config, x: Entity, mask: set<nat>, component: nat)
    requires Shaped(cfg, x, mask) && component in mask
    ensures WithMask(cfg, x, mask - {component}) == Removed(x, component)
  {
    var y, z := WithMask(cfg, x, mask - {component}), Removed(x, component);
    assert y.values == z.values;
    assert y.enabled == z.enabled;
  }

  /** RemoveComponent: exactly that type goes. */
  lemma RemoveRefines(cfg: Config, mem: Memory, s: State, e: EntityId, x: nat)
    requires s.Valid(cfg)
    ensures var o := RemoveComponent(cfg, mem, s, e, x);
      && o.state.Valid(cfg) && s.LivePlaced() && o.state.LivePlaced()
      && (o.result.Ok? ==> e in s.View() && o.state.View() == s.View()[e := Removed(s.View()[e], x)])
      && (o.result.Fail? ==> o.state.View() == s.View())
      && (o.result == Fail(InvalidState) <==> e in s.View() && s.View()[e].mark == Locked)
      && (o.result == Fail(NotFound) <==>
            e !in s.View() || (s.View()[e].mark != Locked && x !in s.View()[e].enabled))
      && (e in s.View() && s.View()[e].mark != Locked && x in s.View()[e].enabled ==>
            Decided(cfg, mem, s.View()[e].enabled.Keys - {x}, o.result))
  {
    s.ValidPlaced(cfg);
    ViewAt(s);
    if s.table.IsAlive(e) {
      LiveShape(cfg, s, e);
      if s.MarkOf(e) != Locked && x in s.archetypes[s.HomeOf(e)].mask {
        MoveRefines(cfg, mem, s, e, s.archetypes[s.HomeOf(e)].mask - {x});
        RemovedWithMask(cfg, s.EntityOf(e), s.archetypes[s.HomeOf(e)].mask, x);
      }
    }
  }

  /** SetMark: between unmarked and locked only. */
  lemma MarkRefines(cfg: Config, s: State, e: EntityId, mark: Mark)
    requires s.Valid(cfg)
    ensures var o := SetMark(cfg, s, e, mark);
      && o.state.Valid(cfg) && s.LivePlaced() && o.state.LivePlaced()
      && (o.result.Ok? ==> e in s.View() && o.state.View() == s.View()[e := s.View()[e].(mark := mark)])
      && (o.result.Fail? ==> o.state == s)
      && (o.result == Fail(NotFound) <==> e !in s.View())
      && (o.result == Fail(InvalidArgument) <==> e in s.View() && (mark == Prototype || s.View()[e].mark == Prototype))
  {
    s.ValidPlaced(cfg);
    ViewAt(s);
    if s.table.IsAlive(e) && mark != Prototype && s.MarkOf(e) != Prototype {
      RemarkedValid(cfg, s, e, mark);
    }
  }

  lemma RemarkedValid(cfg: Config, s: State, e: EntityId, mark: Mark)
    requires s.Valid(cfg) && s.table.IsAlive(e) && (mark == Prototype <==> s.MarkOf(e) == Prototype)
    ensures var t := s.(marks := Remember(s.marks, e.index, mark));
      && t.Valid(cfg) && s.LivePlaced() && t.LivePlaced() && e in s.View() && t.View() == s.View()[e := s.View()[e].(mark := mark)]
  {
    var t := s.(marks := Remember(s.marks, e.index, mark));
    RemarkedFits(cfg, s, t.marks, Full, INVALID_ENTITY);
    forall i: nat ensures MarkAt(t.marks, i) == if i == e.index then mark else MarkAt(s.marks, i) {
      RememberAt(s.marks, e.index, mark, i);
    }
    forall d: EntityId | t.table.IsAlive(d) ensures t.MarkOk(d) {
      assert s.MarkOk(d);
    }
    s.ValidPlaced(cfg);
    t.ValidPlaced(cfg);
    ViewAt(s);
    ViewChanged(s, t, e);
  }

  /** A row of a live entity is overwritten in place. */
  lemma RewriteRefines(cfg: Config, s: State, e: EntityId, row: Row)
    requires s.Valid(cfg) && s.table.IsAlive(e) && row.entity == e && s.Placed(e)
    requires row.values.Keys == s.RowOf(e).values.Keys && row.enabled.Keys == s.RowOf(e).enabled.Keys
    requires forall x :: x in row.values ==> |row.values[x]| == cfg.Size(x)
    ensures var t := s.Rewritten(s.HomeOf(e), s.PlaceOf(e), row);
      && t.Valid(cfg) && s.LivePlaced() && t.LivePlaced()
      && t.View() == s.View()[e := Entity(row.values, row.enabled, s.MarkOf(e))]
  {
    var t := s.Rewritten(s.HomeOf(e), s.PlaceOf(e), row);
    assert s.RowOk(cfg, s.HomeOf(e), s.PlaceOf(e));
    RewrittenFits(cfg, s, e, row);
    forall d: EntityId | t.table.IsAlive(d) ensures t.MarkOk(d) {
      assert s.MarkOk(d);
    }
    s.ValidPlaced(cfg);
    t.ValidPlaced(cfg);
    ViewChanged(s, t, e);
  }

  lemma SetRefines(cfg: Config, s: State, e: EntityId, x: nat, value: seq<byte>)
    requires s.Valid(cfg) && s.table.IsAlive(e) && |value| == cfg.Size(x)
    ensures var t := SetComponent(cfg, s, e, x, value);
      && t.Valid(cfg) && s.LivePlaced() && t.LivePlaced() && e in s.View()
      && t.View() == s.View()[e := if x in s.View()[e].values then s.View()[e].(values := s.View()[e].values[x := value]) else s.View()[e]]
  {
    var row := s.RowOf(e);
    s.ValidPlaced(cfg);
    ViewAt(s);
    assert x in row.values ==> row.values[x := value].Keys == row.values.Keys;
    assert s.RowOk(cfg, s.HomeOf(e), s.PlaceOf(e));
    RewriteRefines(cfg, s, e, if x in row.values then row.(values := row.values[x := value]) else row);
  }

  lemma EnableRefines(cfg: Config, s: State, e: EntityId, x: nat, enabled: bool)
    requires s.Valid(cfg)
    ensures var t := SetEnabled(cfg, s, e, x, enabled);
      && t.Valid(cfg) && s.LivePlaced() && t.LivePlaced()
      && t.View() == if e in s.View() && x in s.View()[e].enabled
                     then s.View()[e := s.View()[e].(enabled := s.View()[e].enabled[x := enabled])] else s.View()
  {
    s.ValidPlaced(cfg);
    ViewAt(s);
    if s.table.IsAlive(e) && x in s.RowOf(e).enabled {
      var row := s.RowOf(e).(enabled := s.RowOf(e).enabled[x := enabled]);
      assert row.enabled.Keys == s.RowOf(e).enabled.Keys;
      assert s.RowOk(cfg, s.HomeOf(e), s.PlaceOf(e));
      RewriteRefines(cfg, s, e, row);
    }
  }

  /** The copy has exactly the components and bits of the source. */
  lemma CloneRow(cfg: Config, s: State, u: State, source: EntityId, e: EntityId)
    requires s.Valid(cfg) && s.table.IsAlive(source)
    requires IsNew(cfg, s, u, e, s.archetypes[s.HomeOf(source)].mask, false)
    ensures var row := Share(u.RowOf(e), s.RowOf(source));
      && row.entity == e && row.values == s.RowOf(source).values && row.enabled == s.RowOf(source).enabled
      && row.values.Keys == u.RowOf(e).values.Keys && row.enabled.Keys == u.RowOf(e).enabled.Keys
      && forall x :: x in row.values ==> |row.values[x]| == cfg.Size(x)
  {
    assert s.RowOk(cfg, s.HomeOf(source), s.PlaceOf(source));
    var row, origin := Share(u.RowOf(e), s.RowOf(source)), s.RowOf(source);
    assert row.values.Keys == origin.values.Keys;
    assert row.values == origin.values;
    assert row.enabled == origin.enabled;
  }

  /** Writing the copy into the row of the new entity. */
  lemma CloneCopies(cfg: Config, s: State, u: State, source: EntityId, e: EntityId)
    requires s.Valid(cfg) && u.Valid(cfg) && s.table.IsAlive(source) && s.LivePlaced() && u.LivePlaced()
    requires IsNew(cfg, s, u, e, s.archetypes[s.HomeOf(source)].mask, false) && u.MarkOf(e) == Unmarked
    ensures var t := u.Rewritten(u.HomeOf(e), u.PlaceOf(e), Share(u.RowOf(e), s.RowOf(source)));
      && t.Valid(cfg) && t.LivePlaced() && t.View() == u.View()[e := s.EntityOf(source).(mark := Unmarked)]
      && t.table == u.table && t.marks == u.marks
  {
    CloneRow(cfg, s, u, source, e);
    RewriteRefines(cfg, u, e, Share(u.RowOf(e), s.RowOf(source)));
  }

  /** The clone of a prototype gets its mark. */
  lemma CloneLocks(cfg: Config, t: State, e: EntityId, v: map<EntityId, Entity>, x: Entity)
    requires t.Valid(cfg) && t.LivePlaced() && t.table.IsAlive(e) && t.MarkOf(e) == Unmarked && t.View() == v[e := x]
    ensures var l := t.(marks := Remember(t.marks, e.index, Locked));
      l.Valid(cfg) && l.LivePlaced() && l.View() == v[e := x.(mark := Locked)]
  {
    var m := t.View();
    OverwriteAgain(m, v, e, x, x.(mark := Locked));
    RemarkedValid(cfg, t, e, Locked);
  }

  lemma OverwriteAgain(m: map<EntityId, Entity>, v: map<EntityId, Entity>, e: EntityId, x: Entity, y: Entity)
    requires m == v[e := x]
    ensures m[e] == x && m[e := y] == v[e := y]
  {}

  /** CloneEntity: a new entity equal to the source except for its mark, which is Locked when the source is
      a prototype and Unmarked otherwise. */
  lemma CloneRefines(cfg: Config, mem: Memory, s: State, source: EntityId)
    requires s.Valid(cfg)
    ensures var o := CloneEntity(cfg, mem, s, source);
      && o.state.Valid(cfg) && s.LivePlaced() && o.state.LivePlaced()
      && (o.result.Ok? ==>
            && source in s.View() && o.result.value !in s.View()
            && o.state.View() == s.View()[o.result.value := s.View()[source].(mark := if s.View()[source].mark == Prototype then Locked else Unmarked)])
      && (o.result.Fail? ==> o.state.View() == s.View())
      && (o.result == Fail(NotFound) <==> source !in s.View())
      && (source in s.View() ==> Decided(cfg, mem, s.View()[source].enabled.Keys, o.result))
  {
    s.ValidPlaced(cfg);
    ViewAt(s);
    if s.table.IsAlive(source) {
      LiveShape(cfg, s, source);
      CloneLive(cfg, mem, s, source);
    }
  }

  lemma CloneLive(cfg: Config, mem: Memory, s: State, source: EntityId)
    requires s.Valid(cfg) && s.table.IsAlive(source) && s.LivePlaced()
    ensures var o := CloneEntity(cfg, mem, s, source);
      && o.state.Valid(cfg) && o.state.LivePlaced()
      && (o.result.Ok? ==>
            && o.result.value !in s.View() && s.Placed(source)
            && o.state.View() == s.View()[o.result.value := s.EntityOf(source).(mark := if s.MarkOf(source) == Prototype then Locked else Unmarked)])
      && (o.result.Fail? ==> o.state.View() == s.View())
      && Decided(cfg, mem, s.archetypes[s.HomeOf(source)].mask, o.result)
  {
    var mask := s.archetypes[s.HomeOf(source)].mask;
    CreateRefines(cfg, mem, s, mask, false);
    var o := Create(cfg, mem, s, mask, false);
    if o.result.Ok? {
      CreateKeeps(cfg, mem, s, mask, false);
      CreateMarks(cfg, mem, s, mask, false, o.result.value.index);
      CloneNew(cfg, s, o.state, source, o.result.value, Fresh(cfg, mask, Unmarked));
    }
  }

  lemma CloneNew(cfg: Config, s: State, u: State, source: EntityId, e: EntityId, blank: Entity)
    requires s.Valid(cfg) && u.Valid(cfg) && s.table.IsAlive(source) && s.LivePlaced() && u.LivePlaced()
    requires IsNew(cfg, s, u, e, s.archetypes[s.HomeOf(source)].mask, false) && u.MarkOf(e) == Unmarked
    requires u.View() == s.View()[e := blank]
    ensures s.Placed(source) && u.Held(u.HomeOf(e), u.PlaceOf(e))
    ensures var t := u.Rewritten(u.HomeOf(e), u.PlaceOf(e), Share(u.RowOf(e), s.RowOf(source)));
      var l := t.(marks := Remember(t.marks, e.index, Locked));
      && t.Valid(cfg) && t.LivePlaced() && t.View() == s.View()[e := s.EntityOf(source).(mark := Unmarked)]
      && l.Valid(cfg) && l.LivePlaced() && l.View() == s.View()[e := s.EntityOf(source).(mark := Locked)]
  {
    CloneCopies(cfg, s, u, source, e);
    OverwriteAgain(u.View(), s.View(), e, blank, s.EntityOf(source).(mark := Unmarked));
    var t := u.Rewritten(u.HomeOf(e), u.PlaceOf(e), Share(u.RowOf(e), s.RowOf(source)));
    CloneLocks(cfg, t, e, s.View(), s.EntityOf(source).(mark := Unmarked));
  }
}
