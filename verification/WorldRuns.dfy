/** Whole runs of a world: what they keep, the map they leave, and when a handle of a destroyed entity
    resolves again. */
module WorldRuns {
  import opened Lists
  import opened Generations
  import opened Bytes
  import opened Results
  import opened Entities
  import opened Archetypes
  import opened WorldStates
  import opened WorldOperations
  import opened WorldTheorems

  datatype Operation =
    | Spawn(mask: set<nat>, prototype: bool) | Unmake(e: EntityId) | Copy(source: EntityId)
    | Extend(e: EntityId, component: nat) | Reduce(e: EntityId, component: nat)
    | Remark(e: EntityId, mark: Mark) | Switch(e: EntityId, component: nat, enabled: bool)
    | Write(e: EntityId, component: nat, value: seq<byte>)

  /** A write goes through the pointer that GetComponentForWrite gives, which is none for an entity that
      is not alive, and covers the bytes of the type. */
  ghost function After(cfg: Config, mem: Memory, s: State, op: Operation): State
    requires s.Valid(cfg)
  {
    match op
    case Spawn(mask, prototype) => Create(cfg, mem, s, mask, prototype).state
    case Unmake(e) => DestroyEntity(cfg, s, e).state
    case Copy(source) => CloneEntity(cfg, mem, s, source).state
    case Extend(e, x) => AddComponent(cfg, mem, s, e, x).state
    case Reduce(e, x) => RemoveComponent(cfg, mem, s, e, x).state
    case Remark(e, mark) => SetMark(cfg, s, e, mark).state
    case Switch(e, x, enabled) => SetEnabled(cfg, s, e, x, enabled)
    case Write(e, x, value) => if s.table.IsAlive(e) && |value| == cfg.Size(x) then SetComponent(cfg, s, e, x, value) else s
  }

  ghost predicate WorldRun(cfg: Config, s: State, steps: seq<(Memory, Operation)>, t: State)
    decreases |steps|
  {
    if steps == [] then s == t
    else s.Valid(cfg) && WorldRun(cfg, After(cfg, steps[0].0, s, steps[0].1), steps[1..], t)
  }

  // --- the map ----------------------------------------------------------------------------------------

  /** One operation on the map, given the handle a creation gets and whether the operation goes through. */
  function MapAfter(cfg: Config, v: map<EntityId, Entity>, op: Operation, handle: EntityId, ok: bool): map<EntityId, Entity> {
    match op
    case Spawn(mask, prototype) => if ok then v[handle := Fresh(cfg, mask, CreateMark(prototype))] else v
    case Unmake(e) => v - {e}
    case Copy(source) =>
      if source in v && ok then v[handle := v[source].(mark := if v[source].mark == Prototype then Locked else Unmarked)] else v
    case Extend(e, x) =>
      if e in v && cfg.Registered(x) && v[e].mark != Locked && x !in v[e].enabled && ok then v[e := Added(cfg, v[e], x)] else v
    case Reduce(e, x) => if e in v && v[e].mark != Locked && x in v[e].enabled && ok then v[e := Removed(v[e], x)] else v
    case Remark(e, mark) => if e in v && mark != Prototype && v[e].mark != Prototype then v[e := v[e].(mark := mark)] else v
    case Switch(e, x, enabled) => if e in v && x in v[e].enabled then v[e := v[e].(enabled := v[e].enabled[x := enabled])] else v
    case Write(e, x, value) =>
      if e in v && |value| == cfg.Size(x) && x in v[e].values then v[e := v[e].(values := v[e].values[x := value])] else v
  }

  /** The components the operation needs an archetype for. */
  function WantedBy(v: map<EntityId, Entity>, op: Operation): Option<set<nat>> {
    match op
    case Spawn(mask, _) => Some(mask)
    case Copy(source) => if source in v then Some(v[source].enabled.Keys) else None
    case Extend(e, x) => if e in v then Some(v[e].enabled.Keys + {x}) else None
    case Reduce(e, x) => if e in v then Some(v[e].enabled.Keys - {x}) else None
    case _ => None
  }

  ghost predicate MapStep(cfg: Config, mem: Memory, v: map<EntityId, Entity>, op: Operation, w: map<EntityId, Entity>) {
    exists handle: EntityId, ok: bool {:trigger MapAfter(cfg, v, op, handle, ok)} ::
      handle !in v && Granted(cfg, mem, WantedBy(v, op), ok) && w == MapAfter(cfg, v, op, handle, ok)
  }

  /** The operations folded over the map, with the same memory. */
  ghost predicate MapRun(cfg: Config, v: map<EntityId, Entity>, steps: seq<(Memory, Operation)>, w: map<EntityId, Entity>)
    decreases |steps|
  {
    if steps == [] then v == w
    else exists m: map<EntityId, Entity> :: MapStep(cfg, steps[0].0, v, steps[0].1, m) && MapRun(cfg, m, steps[1..], w)
  }

  ghost predicate Steps(cfg: Config, mem: Memory, s: State, op: Operation)
    requires s.Valid(cfg)
  {
    var t := After(cfg, mem, s, op);
    t.Valid(cfg) && s.LivePlaced() && t.LivePlaced() && MapStep(cfg, mem, s.View(), op, t.View())
  }

  /** A handle no live entity has. */
  lemma SomeFree(s: State)
    requires s.LivePlaced()
    ensures INVALID_ENTITY !in s.View()
  {
    ViewAt(s);
  }

  lemma SpawnSteps(cfg: Config, mem: Memory, s: State, op: Operation)
    requires s.Valid(cfg) && op.Spawn?
    ensures Steps(cfg, mem, s, op)
  {
    CreateRefines(cfg, mem, s, op.mask, op.prototype);
    SomeFree(s);
    hide State.Valid, State.View, Create, Fresh;
    var o, v := Create(cfg, mem, s, op.mask, op.prototype), s.View();
    var handle := if o.result.Ok? then o.result.value else INVALID_ENTITY;
    assert o.state.View() == MapAfter(cfg, v, op, handle, o.result.Ok?);
  }

  lemma CopySteps(cfg: Config, mem: Memory, s: State, op: Operation)
    requires s.Valid(cfg) && op.Copy?
    ensures Steps(cfg, mem, s, op)
  {
    CloneRefines(cfg, mem, s, op.source);
    SomeFree(s);
    hide State.Valid, State.View, CloneEntity;
    var o, v := CloneEntity(cfg, mem, s, op.source), s.View();
    var handle := if o.result.Ok? then o.result.value else INVALID_ENTITY;
    assert o.state.View() == MapAfter(cfg, v, op, handle, o.result.Ok?);
  }

  lemma ExtendSteps(cfg: Config, mem: Memory, s: State, op: Operation)
    requires s.Valid(cfg) && op.Extend?
    ensures Steps(cfg, mem, s, op)
  {
    AddRefines(cfg, mem, s, op.e, op.component);
    SomeFree(s);
    hide State.Valid, State.View, AddComponent, Added;
    var o, v := AddComponent(cfg, mem, s, op.e, op.component), s.View();
    var tried := op.e in v && cfg.Registered(op.component) && v[op.e].mark != Locked && op.component !in v[op.e].enabled;
    var ok := if tried then o.result.Ok? else op.e in v && cfg.Capacity(v[op.e].enabled.Keys + {op.component}) > 0;
    assert o.state.View() == MapAfter(cfg, v, op, INVALID_ENTITY, ok);
  }

  lemma ReduceSteps(cfg: Config, mem: Memory, s: State, op: Operation)
    requires s.Valid(cfg) && op.Reduce?
    ensures Steps(cfg, mem, s, op)
  {
    RemoveRefines(cfg, mem, s, op.e, op.component);
    SomeFree(s);
    hide State.Valid, State.View, RemoveComponent, Removed;
    var o, v := RemoveComponent(cfg, mem, s, op.e, op.component), s.View();
    var tried := op.e in v && v[op.e].mark != Locked && op.component in v[op.e].enabled;
    var ok := if tried then o.result.Ok? else op.e in v && cfg.Capacity(v[op.e].enabled.Keys - {op.component}) > 0;
    assert o.state.View() == MapAfter(cfg, v, op, INVALID_ENTITY, ok);
  }

  lemma UnmakeSteps(cfg: Config, mem: Memory, s: State, op: Operation)
    requires s.Valid(cfg) && op.Unmake?
    ensures Steps(cfg, mem, s, op)
  {
    hide State.Valid, State.View, Table.IsAlive, DestroyEntity;
    s.ValidPlaced(cfg);
    ViewAt(s);
    SomeFree(s);
    DestroyRefines(cfg, s, op.e);
    assert After(cfg, mem, s, op).View() == MapAfter(cfg, s.View(), op, INVALID_ENTITY, true);
  }

  lemma RemarkSteps(cfg: Config, mem: Memory, s: State, op: Operation)
    requires s.Valid(cfg) && op.Remark?
    ensures Steps(cfg, mem, s, op)
  {
    hide State.Valid, State.View, Table.IsAlive;
    s.ValidPlaced(cfg);
    ViewAt(s);
    SomeFree(s);
    MarkRefines(cfg, s, op.e, op.mark);
    assert After(cfg, mem, s, op).View() == MapAfter(cfg, s.View(), op, INVALID_ENTITY, true);
  }

  lemma SwitchSteps(cfg: Config, mem: Memory, s: State, op: Operation)
    requires s.Valid(cfg) && op.Switch?
    ensures Steps(cfg, mem, s, op)
  {
    hide State.Valid, State.View, Table.IsAlive, SetEnabled;
    s.ValidPlaced(cfg);
    ViewAt(s);
    SomeFree(s);
    EnableRefines(cfg, s, op.e, op.component, op.enabled);
    assert After(cfg, mem, s, op).View() == MapAfter(cfg, s.View(), op, INVALID_ENTITY, true);
  }

  lemma WriteSteps(cfg: Config, mem: Memory, s: State, op: Operation)
    requires s.Valid(cfg) && op.Write?
    ensures Steps(cfg, mem, s, op)
  {
    hide State.Valid, State.View, Table.IsAlive, SetComponent;
    s.ValidPlaced(cfg);
    ViewAt(s);
    SomeFree(s);
    if s.table.IsAlive(op.e) && |op.value| == cfg.Size(op.component) {
      SetRefines(cfg, s, op.e, op.component, op.value);
    }
    assert After(cfg, mem, s, op).View() == MapAfter(cfg, s.View(), op, INVALID_ENTITY, true);
  }

  lemma StepRefines(cfg: Config, mem: Memory, s: State, op: Operation)
    requires s.Valid(cfg)
    ensures Steps(cfg, mem, s, op)
  {
    hide State.Valid, Steps;
    match op
    case Spawn(_, _) => SpawnSteps(cfg, mem, s, op);
    case Copy(_) => CopySteps(cfg, mem, s, op);
    case Extend(_, _) => ExtendSteps(cfg, mem, s, op);
    case Reduce(_, _) => ReduceSteps(cfg, mem, s, op);
    case Unmake(_) => UnmakeSteps(cfg, mem, s, op);
    case Remark(_, _) => RemarkSteps(cfg, mem, s, op);
    case Switch(_, _, _) => SwitchSteps(cfg, mem, s, op);
    case Write(_, _, _) => WriteSteps(cfg, mem, s, op);
  }

  /** Any sequence of operations keeps the storage in order, failures included, and leaves the map that
      the same operations leave when they are folded over the map. */
  lemma {:induction false} RunRefines(cfg: Config, s: State, steps: seq<(Memory, Operation)>, t: State)
    requires s.Valid(cfg) && WorldRun(cfg, s, steps, t)
    ensures t.Valid(cfg) && s.LivePlaced() && t.LivePlaced() && MapRun(cfg, s.View(), steps, t.View())
    decreases |steps|
  {
    hide State.Valid, State.View, After, MapStep;
    s.ValidPlaced(cfg);
    if steps != [] {
      StepRefines(cfg, steps[0].0, s, steps[0].1);
      RunRefines(cfg, After(cfg, steps[0].0, s, steps[0].1), steps[1..], t);
    }
  }

  // --- the storage ------------------------------------------------------------------------------------

  /** After any sequence of operations on an empty world, failures included: rows and locations are
      mutually inverse, all chunks but the last of each archetype are full and none is empty, the
      free list is exactly the dead indices, and prototypes live in prototype archetypes. */
  lemma StorageInOrder(cfg: Config, steps: seq<(Memory, Operation)>, t: State)
    requires WorldRun(cfg, EmptyWorld(), steps, t)
    ensures forall e: EntityId :: t.table.IsAlive(e) ==> t.Placed(e) && (t.MarkOf(e) == Prototype <==> t.archetypes[t.HomeOf(e)].prototype)
    ensures forall a: nat, p: Place :: t.Held(a, p) ==>
      var e := t.archetypes[a].At(p).entity; t.table.IsAlive(e) && t.table.LocationOf(e) == Location(a, p.chunk, p.row)
    ensures forall a :: 0 <= a < |t.archetypes| ==> t.archetypes[a].Packed()
    ensures forall i: nat :: i in t.table.free <==> i < |t.table.slots| && !t.table.slots[i].alive
    ensures Distinct(t.table.free)
  {
    RunRefines(cfg, EmptyWorld(), steps, t);
    forall e: EntityId | t.table.IsAlive(e) ensures t.Placed(e) && (t.MarkOf(e) == Prototype <==> t.archetypes[t.HomeOf(e)].prototype) {
      assert t.MarkOk(e);
    }
    forall a: nat, p: Place | t.Held(a, p)
      ensures var e := t.archetypes[a].At(p).entity; t.table.IsAlive(e) && t.table.LocationOf(e) == Location(a, p.chunk, p.row)
    {
      assert t.RowOk(cfg, a, p);
    }
    forall a | 0 <= a < |t.archetypes| ensures t.archetypes[a].Packed() {
      assert t.ArchetypeOk(cfg, a);
    }
  }

  // --- handles ----------------------------------------------------------------------------------------

  lemma {:induction false} TableRunJoins(t: Table, first: seq<TableStep>, u: Table, second: seq<TableStep>, w: Table)
    requires TableRun(t, first, u) && TableRun(u, second, w)
    ensures TableRun(t, first + second, w)
    decreases |first|
  {
    hide Allowed, Apply;
    if first == [] {
      assert first + second == second;
    } else {
      TableRunJoins(Apply(t, first[0]), first[1..], u, second, w);
      assert (first + second)[1..] == first[1..] + second && (first + second)[0] == first[0];
    }
  }

  lemma {:induction false} DestroysJoin(first: seq<TableStep>, second: seq<TableStep>, i: nat)
    ensures Destroys(first + second, i) == Destroys(first, i) + Destroys(second, i)
    decreases |first|
  {
    if first == [] {
      assert first + second == second;
    } else {
      DestroysJoin(first[1..], second, i);
      assert (first + second)[1..] == first[1..] + second && (first + second)[0] == first[0];
    }
  }

  lemma TableJoins(t: Table, first: seq<TableStep>, u: Table, second: seq<TableStep>, w: Table)
    requires TableRun(t, first, u) && TableRun(u, second, w)
    ensures TableRun(t, first + second, w)
    ensures forall i: nat :: Destroys(first + second, i) == Destroys(first, i) + Destroys(second, i)
  {
    hide TableRun, Destroys;
    TableRunJoins(t, first, u, second, w);
    forall i: nat ensures Destroys(first + second, i) == Destroys(first, i) + Destroys(second, i) {
      DestroysJoin(first, second, i);
    }
  }

  /** The registry's steps of one operation, which destroys an index at most once. */
  ghost predicate TableStepsOf(t: Table, steps: seq<TableStep>, u: Table) {
    TableRun(t, steps, u) && forall i: nat :: Destroys(steps, i) <= 1
  }

  lemma OneStep(t: Table, step: TableStep)
    requires Allowed(t, step)
    ensures TableStepsOf(t, [step], Apply(t, step))
  {
    assert TableRun(Apply(t, step), [], Apply(t, step));
  }

  lemma TwoSteps(t: Table, first: TableStep, second: TableStep)
    requires Allowed(t, first) && Allowed(Apply(t, first), second) && !first.End?
    ensures TableStepsOf(t, [first, second], Apply(Apply(t, first), second))
  {
    OneStep(t, first);
    OneStep(Apply(t, first), second);
    hide Allowed, Apply;
    TableJoins(t, [first], Apply(t, first), [second], Apply(Apply(t, first), second));
    assert [first] + [second] == [first, second];
  }

  /** A creation that finds no memory for a chunk uses up the handle it took. */
  lemma CreateTableSteps(cfg: Config, mem: Memory, s: State, mask: set<nat>, prototype: bool) returns (r: seq<TableStep>)
    requires s.Valid(cfg)
    ensures TableStepsOf(s.table, r, CreateEntityIn(cfg, mem, s, mask, prototype).state.table)
  {
    var found := GetOrCreateArchetype(cfg, mem, s, mask, prototype);
    CreatedParts(cfg, mem, s, mask, prototype);
    var e := s.table.NewId();
    if found.result.Fail? {
      r := [];
    } else if found.state.archetypes[found.result.value].NeedsChunk() && !mem.chunk {
      TwoSteps(s.table, Make, End(e));
      r := [Make, End(e)];
    } else {
      var n := found.state.archetypes[found.result.value].NextPlace();
      var there := Location(found.result.value, n.chunk, n.row);
      TwoSteps(s.table, Make, Locate(e, there));
      r := [Make, Locate(e, there)];
    }
  }

  /** Filling the hole a row leaves tells the moved entity its place. */
  lemma FilledSteps(s: State, a: nat, p: Place) returns (r: seq<TableStep>)
    requires s.Held(a, p) && s.archetypes[a].Packed() && s.table.Valid()
    requires s.archetypes[a].Moved(p).IsValid() ==> s.table.IsAlive(s.archetypes[a].Moved(p))
    ensures TableRun(s.table, r, s.Filled(a, p).table) && forall i: nat :: Destroys(r, i) == 0
  {
    var moved := s.archetypes[a].Moved(p);
    if moved.IsValid() {
      OneStep(s.table, Locate(moved, Location(a, p.chunk, p.row)));
      r := [Locate(moved, Location(a, p.chunk, p.row))];
    } else {
      r := [];
    }
  }

  lemma DestroySteps(cfg: Config, s: State, e: EntityId) returns (r: seq<TableStep>)
    requires s.Valid(cfg)
    ensures TableStepsOf(s.table, r, DestroyEntity(cfg, s, e).state.table)
  {
    if s.table.IsAlive(e) {
      DestroyParts(cfg, s, e);
      s.ValidTable(cfg);
      var t := s.Filled(s.HomeOf(e), s.PlaceOf(e));
      var first := FilledSteps(s, s.HomeOf(e), s.PlaceOf(e));
      OneStep(t.table, End(e));
      TableJoins(s.table, first, t.table, [End(e)], t.table.Destroyed(e));
      r := first + [End(e)];
    } else {
      r := [];
    }
  }

  lemma MoveTableSteps(cfg: Config, mem: Memory, s: State, e: EntityId, target: set<nat>) returns (r: seq<TableStep>)
    requires s.Valid(cfg) && s.table.IsAlive(e) && target != s.archetypes[s.HomeOf(e)].mask
    ensures TableStepsOf(s.table, r, MoveEntity(cfg, mem, s, e, target).state.table)
  {
    MoveSteps(cfg, mem, s, e, target);
    s.ValidTable(cfg);
    hide State.Valid;
    var o := MoveEntity(cfg, mem, s, e, target);
    if o.result.Ok? {
      var found := GetOrCreateArchetype(cfg, mem, s, target, s.archetypes[s.HomeOf(e)].prototype);
      var row, a := Share(InitialRow(cfg.infos, target, e), s.RowOf(e)), found.result.value;
      var t, n := found.state.Inserted(a, row), found.state.archetypes[a].NextPlace();
      RelocatedTable(s.table, e, Location(a, n.chunk, n.row));
      OneStep(s.table, Locate(e, Location(a, n.chunk, n.row)));
      var second := FilledSteps(t, s.HomeOf(e), s.PlaceOf(e));
      TableJoins(s.table, [Locate(e, Location(a, n.chunk, n.row))], t.table, second, o.state.table);
      r := [Locate(e, Location(a, n.chunk, n.row))] + second;
    } else {
      r := [];
    }
  }

  lemma TableAfter(cfg: Config, mem: Memory, s: State, op: Operation) returns (r: seq<TableStep>)
    requires s.Valid(cfg)
    ensures TableStepsOf(s.table, r, After(cfg, mem, s, op).table)
  {
    hide State.Valid;
    s.ValidPlaced(cfg);
    ViewAt(s);
    r := [];
    match op {
      case Spawn(mask, prototype) => r := CreateTableSteps(cfg, mem, s, mask, prototype);
      case Unmake(e) => r := DestroySteps(cfg, s, e);
      case Copy(source) =>
        if s.table.IsAlive(source) { r := CreateTableSteps(cfg, mem, s, s.archetypes[s.HomeOf(source)].mask, false); }
      case Extend(e, x) =>
        if s.table.IsAlive(e) && cfg.Registered(x) && s.MarkOf(e) != Locked && x !in s.archetypes[s.HomeOf(e)].mask {
          r := MoveTableSteps(cfg, mem, s, e, s.archetypes[s.HomeOf(e)].mask + {x});
        }
      case Reduce(e, x) =>
        if s.table.IsAlive(e) && s.MarkOf(e) != Locked && x in s.archetypes[s.HomeOf(e)].mask {
          r := MoveTableSteps(cfg, mem, s, e, s.archetypes[s.HomeOf(e)].mask - {x});
        }
      case _ =>
    }
  }

  /** A run of the world is a run of its registry, with at most one destruction of an index a step. */
  lemma {:induction false} RunTable(cfg: Config, s: State, steps: seq<(Memory, Operation)>, t: State) returns (r: seq<TableStep>)
    requires s.Valid(cfg) && WorldRun(cfg, s, steps, t)
    ensures TableRun(s.table, r, t.table) && forall i: nat :: Destroys(r, i) <= |steps|
    decreases |steps|
  {
    hide State.Valid, After;
    r := [];
    if steps != [] {
      var next := After(cfg, steps[0].0, s, steps[0].1);
      var first := TableAfter(cfg, steps[0].0, s, steps[0].1);
      StepRefines(cfg, steps[0].0, s, steps[0].1);
      var rest := RunTable(cfg, next, steps[1..], t);
      TableJoins(s.table, first, next.table, rest, t.table);
      r := first + rest;
    }
  }

  /** A handle of a destroyed entity is not in the map again, whatever the world does, before its index
      has been destroyed 0xFFFFFFFF times; and it is then exactly when the index is alive after a
      multiple of so many destructions. */
  lemma DestroyedStaysOut(cfg: Config, s: State, e: EntityId, steps: seq<(Memory, Operation)>, t: State) returns (r: seq<TableStep>)
    requires s.Valid(cfg) && s.table.IsAlive(e) && WorldRun(cfg, DestroyEntity(cfg, s, e).state, steps, t)
    ensures TableRun(DestroyEntity(cfg, s, e).state.table, r, t.table) && Destroys(r, e.index) <= |steps|
    ensures t.LivePlaced()
    ensures e in t.View() <==>
      e.index < |t.table.slots| && t.table.slots[e.index].alive && (1 + Destroys(r, e.index)) % GENERATIONS == 0
    ensures e in t.View() ==> 1 + |steps| >= GENERATIONS
  {
    hide *;
    var u := DestroyEntity(cfg, s, e).state;
    var before := DestroyedTable(cfg, s, e);
    DestroyRefines(cfg, s, e);
    RunRefines(cfg, u, steps, t);
    r := RunTable(cfg, u, steps, t);
    DestroyedHandleResolves(before, e, r, t.table);
    ViewAt(t);
    ShortRun(Destroys(r, e.index), |steps|);
  }

  lemma DestroyedTable(cfg: Config, s: State, e: EntityId) returns (before: Table)
    requires s.Valid(cfg) && s.table.IsAlive(e)
    ensures before.Valid() && before.IsAlive(e) && DestroyEntity(cfg, s, e).state.table == before.Destroyed(e)
  {
    DestroyParts(cfg, s, e);
    before := s.Filled(s.HomeOf(e), s.PlaceOf(e)).table;
  }

  lemma ShortRun(k: nat, n: nat)
    requires k <= n
    ensures (1 + k) % GENERATIONS == 0 ==> 1 + n >= GENERATIONS
  {}
}
