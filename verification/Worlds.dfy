/** World: the entity registry, the archetypes and the marks, changed in place. */
module Worlds {
  import opened Bytes
  import opened Results
  import opened Entities
  import opened Archetypes
  import opened WorldStates
  import opened WorldOperations
  import opened WorldTheorems
  import opened CommandBuffers
  import opened Replays
  import opened ReplayTheorems

  /** The managed objects, by handle. */
  class ManagedStore {
    var objects: map<nat, Managed>

    constructor ()
      ensures objects == map[]
    {
      objects := map[];
    }

    /** Overwrites the state of a typed object of the owner, if the size is its state size. */
    method WriteState(handle: nat, owner: EntityId, bytes: seq<byte>) returns (ok: bool)
      modifies this
      ensures ok == (handle in old(objects) && old(objects)[handle].typed && old(objects)[handle].owner == owner && |old(objects)[handle].state| == |bytes|)
      ensures objects == if ok then old(objects)[handle := old(objects)[handle].(state := bytes)] else old(objects)
    {
      ok := handle in objects && objects[handle].typed && objects[handle].owner == owner && |objects[handle].state| == |bytes|;
      if ok {
        objects := objects[handle := objects[handle].(state := bytes)];
      }
    }
  }

  class World {
    const cfg: Config
    const entities: EntityRegistry
    var archetypes: seq<Archetype>
    var marks: seq<Mark>
    const managed: ManagedStore

    ghost function Repr(): set<object>
      reads this
    {
      {this, entities} + set a | a in archetypes
    }

    ghost function Storages(): seq<Storage>
      reads archetypes, this
    {
      seq(|archetypes|, i requires 0 <= i < |archetypes| reads this, archetypes => archetypes[i].Contents())
    }

    ghost function Contents(): State
      reads Repr(), this
    {
      State(entities.Contents(), Storages(), marks)
    }

    /** The objects are separate and each archetype is in order. */
    ghost predicate Objects()
      reads Repr(), this
    {
      && (forall i, j :: 0 <= i < j < |archetypes| ==> archetypes[i] != archetypes[j])
      && (forall i :: 0 <= i < |archetypes| ==> archetypes[i].Valid())
    }

    ghost predicate Valid()
      reads Repr(), this
    {
      Objects() && Contents().Valid(cfg)
    }

    constructor (cfg: Config)
      ensures Valid() && Contents() == EmptyWorld() && this.cfg == cfg && fresh(Repr()) && fresh(managed) && managed.objects == map[]
    {
      this.cfg := cfg;
      entities := new EntityRegistry();
      managed := new ManagedStore();
      archetypes, marks := [], [];
    }

    method GetOrCreateArchetype(mask: set<nat>, prototype: bool, mem: Memory) returns (r: Result<nat>)
      requires Objects()
      modifies this`archetypes
      ensures Objects() && fresh(Repr() - old(Repr())) && old(archetypes) <= archetypes
      ensures Contents() == WorldOperations.GetOrCreateArchetype(cfg, mem, old(Contents()), mask, prototype).state
      ensures r == WorldOperations.GetOrCreateArchetype(cfg, mem, old(Contents()), mask, prototype).result
    {
      var i := 0;
      while i < |archetypes| && !(archetypes[i].prototype == prototype && archetypes[i].mask == mask)
        invariant 0 <= i <= |archetypes| && Objects() && Contents() == old(Contents()) && archetypes == old(archetypes)
        invariant FindFrom(Storages(), mask, prototype, i) == FindFrom(Storages(), mask, prototype, 0)
      {
        assert Storages()[i].mask == archetypes[i].mask;
        i := i + 1;
      }
      if i < |archetypes| {
        return Ok(i);
      }
      var capacity := cfg.Capacity(mask);
      if capacity == 0 {
        return Fail(InvalidArgument);
      }
      if !mem.archetype {
        return Fail(OutOfMemory);
      }
      var created := new Archetype(mask, prototype, capacity);
      archetypes := archetypes + [created];
      assert Storages() == old(Storages()) + [created.Contents()];
      return Ok(i);
    }

    /** A row in archetype a; the other archetypes are untouched. */
    method AllocateRow(a: nat, row: Row, mem: Memory) returns (ok: bool)
      requires Objects() && a < |archetypes| && row.entity.index < |entities.slots| && entities.Contents().IsAlive(row.entity)
      modifies archetypes[a], entities
      ensures Objects() && ok == (mem.chunk || !old(archetypes[a].Contents().NeedsChunk()))
      ensures Contents() == if ok then old(Contents()).Inserted(a, row) else old(Contents())
    {
      var place;
      ok, place := archetypes[a].Allocate(row, mem.chunk);
      if ok {
        entities.SetLocation(row.entity, Location(a, place.chunk, place.row));
        assert Storages() == old(Storages())[a := archetypes[a].Contents()];
      } else {
        assert Storages() == old(Storages());
      }
    }

    /** Takes the row out and tells the entity that filled the hole. */
    method RemoveRow(a: nat, p: Place)
      requires Objects() && a < |archetypes| && archetypes[a].Contents().Holds(p)
      requires var moved := archetypes[a].Contents().Moved(p); moved.IsValid() ==> entities.Contents().IsAlive(moved)
      modifies archetypes[a], entities
      ensures Objects() && Contents() == old(Contents()).Filled(a, p)
    {
      var moved := archetypes[a].Remove(p);
      if moved.IsValid() {
        entities.SetLocation(moved, Location(a, p.chunk, p.row));
      }
      assert Storages() == old(Storages())[a := archetypes[a].Contents()];
    }

    method WriteRow(a: nat, p: Place, row: Row)
      requires Objects() && a < |archetypes| && archetypes[a].Contents().Holds(p)
      modifies archetypes[a]
      ensures Objects() && Contents() == old(Contents()).Rewritten(a, p, row)
    {
      archetypes[a].Write(p, row);
      assert Storages() == old(Storages())[a := archetypes[a].Contents()];
    }

    method NewEntity() returns (e: EntityId)
      requires Objects() && entities.Contents().Valid()
      modifies entities
      ensures Objects() && e == old(entities.Contents().NewId())
      ensures Contents() == old(Contents()).(table := old(Contents()).table.Created())
    {
      e := entities.Create();
      assert Storages() == old(Storages());
    }

    method EndEntity(e: EntityId)
      requires Objects() && entities.Contents().Valid() && entities.Contents().IsAlive(e)
      modifies entities
      ensures Objects()
      ensures Contents() == old(Contents()).(table := old(Contents()).table.Destroyed(e))
    {
      entities.Destroy(e);
      assert Storages() == old(Storages());
    }

    method RememberMark(i: nat, mark: Mark)
      requires Objects()
      modifies this`marks
      ensures Objects() && Contents() == old(Contents()).(marks := Remember(old(marks), i, mark))
    {
      marks := Remember(marks, i, mark);
    }

    /** A row for a new entity, or the entity is given up again. */
    method CreateRow(a: nat, mask: set<nat>, mem: Memory) returns (r: Result<EntityId>)
      requires Objects() && a < |archetypes| && entities.Contents().Valid() && forall x :: x in mask ==> x < |cfg.infos|
      modifies archetypes[a], entities, this`marks
      ensures Objects() && Contents() == CreatedRow(cfg, mem, old(Contents()), a, mask).state
      ensures r == CreatedRow(cfg, mem, old(Contents()), a, mask).result
    {
      Contents().table.CreatedValid();
      var e := NewEntity();
      var ok := AllocateRow(a, InitialRow(cfg.infos, mask, e), mem);
      if !ok {
        EndEntity(e);
        return Fail(OutOfMemory);
      }
      RememberMark(e.index, Unmarked);
      return Ok(e);
    }

    method CreateEntityIn(mask: set<nat>, prototype: bool, mem: Memory) returns (r: Result<EntityId>)
      requires Valid()
      modifies Repr()
      ensures Objects() && fresh(Repr() - old(Repr()))
      ensures Contents() == WorldOperations.CreateEntityIn(cfg, mem, old(Contents()), mask, prototype).state
      ensures r == WorldOperations.CreateEntityIn(cfg, mem, old(Contents()), mask, prototype).result
    {
      hide State.Valid, State.Fits, WorldOperations.GetOrCreateArchetype;
      Contents().ValidTable(cfg);
      CreatedParts(cfg, mem, Contents(), mask, prototype);
      var found := GetOrCreateArchetype(mask, prototype, mem);
      if found.Fail? {
        return Fail(found.error);
      }
      r := CreateRow(found.value, mask, mem);
    }

    // --- the operations of the interface ----------------------------------------------------------

    method CreateEntity(mask: set<nat>, mem: Memory) returns (r: Result<EntityId>)
      requires Valid()
      modifies Repr()
      ensures Valid() && fresh(Repr() - old(Repr()))
      ensures Contents() == WorldOperations.Create(cfg, mem, old(Contents()), mask, false).state
      ensures r == WorldOperations.Create(cfg, mem, old(Contents()), mask, false).result
    {
      hide State.Valid, WorldOperations.CreateEntityIn;
      CreateValid(cfg, mem, Contents(), mask, false);
      r := CreateEntityIn(mask, false, mem);
    }

    method CreatePrototype(mask: set<nat>, mem: Memory) returns (r: Result<EntityId>)
      requires Valid()
      modifies Repr()
      ensures Valid() && fresh(Repr() - old(Repr()))
      ensures Contents() == WorldOperations.Create(cfg, mem, old(Contents()), mask, true).state
      ensures r == WorldOperations.Create(cfg, mem, old(Contents()), mask, true).result
    {
      hide State.Valid, WorldOperations.CreateEntityIn;
      CreateValid(cfg, mem, Contents(), mask, true);
      r := CreateEntityIn(mask, true, mem);
      if r.Ok? {
        RememberMark(r.value.index, Prototype);
      }
    }

    method DestroyEntity(e: EntityId) returns (r: Result<()>)
      requires Valid()
      modifies Repr()
      ensures Valid() && Repr() == old(Repr())
      ensures Contents() == WorldOperations.DestroyEntity(cfg, old(Contents()), e).state
      ensures r == WorldOperations.DestroyEntity(cfg, old(Contents()), e).result
    {
      hide State.Valid, State.Fits, State.Filled, Table.Destroyed, Remember, Table.Valid, Storage.Packed, State.View;
      DestroyRefines(cfg, Contents(), e);
      var alive := entities.IsAlive(e);
      if !alive {
        return Fail(NotFound);
      }
      DestroyParts(cfg, Contents(), e);
      var row := entities.slots[e.index].location;
      RemoveRow(row.archetype, Place(row.chunk, row.row));
      RememberMark(e.index, Unmarked);
      EndEntity(e);
      return Ok(());
    }

    /** The row moves to the archetype of the target mask. */
    method MoveEntity(e: EntityId, target: set<nat>, mem: Memory) returns (r: Result<()>)
      requires Valid() && Contents().table.IsAlive(e) && Contents().HomeOf(e) < |archetypes|
      requires target != archetypes[Contents().HomeOf(e)].mask
      modifies Repr()
      ensures Objects() && fresh(Repr() - old(Repr()))
      ensures Contents() == WorldOperations.MoveEntity(cfg, mem, old(Contents()), e, target).state
      ensures r == WorldOperations.MoveEntity(cfg, mem, old(Contents()), e, target).result
    {
      hide State.Valid, State.Fits, State.Filled, State.Inserted, Table.Valid, Storage.Packed, WorldOperations.GetOrCreateArchetype;
      MoveSteps(cfg, mem, Contents(), e, target);
      var source := entities.slots[e.index].location;
      var place := Place(source.chunk, source.row);
      var copied := archetypes[source.archetype].chunks[place.chunk][place.row];
      var found := GetOrCreateArchetype(target, archetypes[source.archetype].prototype, mem);
      if found.Fail? {
        return Fail(found.error);
      }
      var row := Share(InitialRow(cfg.infos, target, e), copied);
      var ok := AllocateRow(found.value, row, mem);
      if !ok {
        return Fail(OutOfMemory);
      }
      RemoveRow(source.archetype, place);
      return Ok(());
    }

    method AddComponent(e: EntityId, component: nat, mem: Memory) returns (r: Result<()>)
      requires Valid()
      modifies Repr()
      ensures Valid() && fresh(Repr() - old(Repr()))
      ensures Contents() == WorldOperations.AddComponent(cfg, mem, old(Contents()), e, component).state
      ensures r == WorldOperations.AddComponent(cfg, mem, old(Contents()), e, component).result
    {
      hide State.Valid, State.View, WorldOperations.MoveEntity;
      AddRefines(cfg, mem, Contents(), e, component);
      var alive := entities.IsAlive(e);
      if !alive {
        return Fail(NotFound);
      }
      if !cfg.Registered(component) {
        return Fail(InvalidArgument);
      }
      if MarkAt(marks, e.index) == Locked {
        return Fail(InvalidState);
      }
      LiveShape(cfg, Contents(), e);
      var current := archetypes[entities.slots[e.index].location.archetype].mask;
      if component in current {
        return Fail(AlreadyExists);
      }
      r := MoveEntity(e, current + {component}, mem);
    }

    method RemoveComponent(e: EntityId, component: nat, mem: Memory) returns (r: Result<()>)
      requires Valid()
      modifies Repr()
      ensures Valid() && fresh(Repr() - old(Repr()))
      ensures Contents() == WorldOperations.RemoveComponent(cfg, mem, old(Contents()), e, component).state
      ensures r == WorldOperations.RemoveComponent(cfg, mem, old(Contents()), e, component).result
    {
      hide State.Valid, State.View, WorldOperations.MoveEntity;
      RemoveRefines(cfg, mem, Contents(), e, component);
      var alive := entities.IsAlive(e);
      if !alive {
        return Fail(NotFound);
      }
      if MarkAt(marks, e.index) == Locked {
        return Fail(InvalidState);
      }
      LiveShape(cfg, Contents(), e);
      var current := archetypes[entities.slots[e.index].location.archetype].mask;
      if component !in current {
        return Fail(NotFound);
      }
      r := MoveEntity(e, current - {component}, mem);
    }

    method SetMark(e: EntityId, mark: Mark) returns (r: Result<()>)
      requires Valid()
      modifies Repr()
      ensures Valid() && Repr() == old(Repr())
      ensures Contents() == WorldOperations.SetMark(cfg, old(Contents()), e, mark).state
      ensures r == WorldOperations.SetMark(cfg, old(Contents()), e, mark).result
    {
      hide State.Valid, State.View;
      MarkRefines(cfg, Contents(), e, mark);
      var alive := entities.IsAlive(e);
      if !alive {
        return Fail(NotFound);
      }
      if mark == Prototype || MarkAt(marks, e.index) == Prototype {
        return Fail(InvalidArgument);
      }
      RememberMark(e.index, mark);
      return Ok(());
    }

    /** Writes through the pointer GetComponentForWrite gives; nothing without the column. */
    method SetComponent(e: EntityId, component: nat, value: seq<byte>) returns (there: bool)
      requires Valid() && |value| == cfg.Size(component)
      modifies Repr()
      ensures Valid() && Repr() == old(Repr())
      ensures there == (old(Contents()).table.IsAlive(e) && old(Contents()).Placed(e) && component in old(Contents()).RowOf(e).values)
      ensures Contents() == if there then WorldOperations.SetComponent(cfg, old(Contents()), e, component, value) else old(Contents())
    {
      hide State.Valid, State.View;
      var alive := entities.IsAlive(e);
      if !alive {
        return false;
      }
      LiveShape(cfg, Contents(), e);
      SetRefines(cfg, Contents(), e, component, value);
      var at := entities.slots[e.index].location;
      var row := archetypes[at.archetype].chunks[at.chunk][at.row];
      if component !in row.values {
        return false;
      }
      WriteRow(at.archetype, Place(at.chunk, at.row), row.(values := row.values[component := value]));
      return true;
    }

    method SetComponentEnabled(e: EntityId, component: nat, enabled: bool)
      requires Valid()
      modifies Repr()
      ensures Valid() && Repr() == old(Repr())
      ensures Contents() == SetEnabled(cfg, old(Contents()), e, component, enabled)
    {
      hide State.Valid, State.View;
      EnableRefines(cfg, Contents(), e, component, enabled);
      var alive := entities.IsAlive(e);
      if !alive {
        return;
      }
      LiveShape(cfg, Contents(), e);
      var at := entities.slots[e.index].location;
      var row := archetypes[at.archetype].chunks[at.chunk][at.row];
      if component !in row.enabled {
        return;
      }
      WriteRow(at.archetype, Place(at.chunk, at.row), row.(enabled := row.enabled[component := enabled]));
    }

    method CloneEntity(source: EntityId, mem: Memory) returns (r: Result<EntityId>)
      requires Valid()
      modifies Repr()
      ensures Valid() && fresh(Repr() - old(Repr()))
      ensures Contents() == WorldOperations.CloneEntity(cfg, mem, old(Contents()), source).state
      ensures r == WorldOperations.CloneEntity(cfg, mem, old(Contents()), source).result
    {
      hide State.Valid, State.View, State.Fits, WorldOperations.CreateEntityIn, Storage.Packed, Table.Valid, Share;
      assert WorldOperations.CloneEntity(cfg, mem, Contents(), source).state.Valid(cfg) by {
        CloneRefines(cfg, mem, Contents(), source);
      }
      var alive := entities.IsAlive(source);
      if !alive {
        return Fail(NotFound);
      }
      LiveShape(cfg, Contents(), source);
      var from := entities.slots[source.index].location;
      var mask := archetypes[from.archetype].mask;
      var copied := archetypes[from.archetype].chunks[from.chunk][from.row];
      var isPrototype := MarkAt(marks, source.index) == Prototype;
      CreateKeeps(cfg, mem, Contents(), mask, false);
      r := CreateEntityIn(mask, false, mem);
      if r.Fail? {
        return;
      }
      var to := entities.slots[r.value.index].location;
      WriteRow(to.archetype, Place(to.chunk, to.row), Share(archetypes[to.archetype].chunks[to.chunk][to.row], copied));
      if isPrototype {
        RememberMark(r.value.index, Locked);
      }
    }

    // --- the sync point ---------------------------------------------------------------------------

    /** A command on a live entity. */
    method ApplyTo(b: nat, action: Action, e: EntityId, created: seq<seq<EntityId>>, mem: Memory, ghost p: Progress) returns (ok: bool)
      requires Valid() && p.state == Contents() && p.managed == managed.objects && p.created == created && Ready(cfg, p, b, action)
      requires Contents().table.IsAlive(e) && !action.Create? && !action.Clone?
      modifies Repr(), managed
      ensures Valid() && fresh(Repr() - old(Repr()))
      ensures AppliedTo(cfg, mem, p, b, action, e) ==
        p.(state := Contents(), managed := managed.objects).Count(ok)
    {
      hide State.Valid, State.View, WorldOperations.DestroyEntity, WorldOperations.AddComponent, WorldOperations.RemoveComponent,
        WorldOperations.SetMark, WorldOperations.SetComponent, SetEnabled;
      LiveShape(cfg, Contents(), e);
      match action
      case Destroy(_) =>
        var r := DestroyEntity(e);
        ok := r.Ok?;
      case Add(_, x) =>
        var r := AddComponent(e, x, mem);
        ok := r.Ok?;
      case Remove(_, x) =>
        var r := RemoveComponent(e, x, mem);
        ok := r.Ok?;
      case Set(_, x, bytes) =>
        if |bytes| == cfg.Size(x) {
          ok := SetComponent(e, x, bytes);
        } else {
          ok := false;
        }
      case Enable(_, x, enabled) =>
        ok := x in archetypes[entities.slots[e.index].location.archetype].mask;
        if ok {
          SetComponentEnabled(e, x, enabled);
        }
      case SetMark(_, mark) =>
        var r := SetMark(e, mark);
        ok := r.Ok?;
      case WriteManaged(_, handle, bytes) =>
        ok := managed.WriteState(handle, e, bytes);
      case Link(_, x, offset, reference) =>
        var referenced := if reference.Some? then created[b][reference.value] else INVALID_ENTITY;
        var at := entities.slots[e.index].location;
        var row := archetypes[at.archetype].chunks[at.chunk][at.row];
        ok := referenced.IsValid() && x in row.values && offset + 8 <= cfg.Size(x);
        if ok {
          ok := SetComponent(e, x, Patched(row.values[x], offset, HandleBytes(referenced)));
        }
      case Call(_, callable) =>
        ok := callable;
    }

    /** One recorded command; `p` is the replay so far. */
    method ReplayOne(b: nat, action: Action, created: seq<seq<EntityId>>, mem: Memory, ghost p: Progress)
      returns (ok: bool, filled: seq<seq<EntityId>>)
      requires Valid() && p.state == Contents() && p.managed == managed.objects && p.created == created && Ready(cfg, p, b, action)
      modifies Repr(), managed
      ensures Valid() && fresh(Repr() - old(Repr()))
      ensures Replayed(cfg, mem, p, b, action) == p.(state := Contents(), managed := managed.objects, created := filled).Count(ok)
    {
      hide State.Valid, WorldOperations.Create, WorldOperations.CloneEntity, AppliedTo;
      filled := created;
      if action.Create? {
        var r := CreateEntity(action.mask, mem);
        ok := r.Ok?;
        if ok { filled := created[b := created[b][action.slot := r.value]]; }
      } else if action.Clone? {
        var r := CloneEntity(action.source, mem);
        ok := r.Ok?;
        if ok { filled := created[b := created[b][action.slot := r.value]]; }
      } else {
        var target := Resolve(created[b], TargetOfAction(action));
        ok := entities.IsAlive(target);
        if ok {
          ok := ApplyTo(b, action, target, created, mem, p);
        }
      }
    }

    /** The commands in the given order, one after another. */
    method ReplayAll(lists: seq<seq<Recorded>>, order: seq<Ref>, none: seq<seq<EntityId>>, mems: seq<Memory>)
      returns (applied: nat, skipped: nat, slots: seq<seq<EntityId>>)
      requires Valid() && SlotsFit(lists, none) && |mems| == |order|
      requires forall i :: 0 <= i < |order| ==> IsRef(lists, order[i])
      modifies Repr(), managed
      ensures Valid() && fresh(Repr() - old(Repr())) && applied + skipped == |order|
      ensures ReplayOf(cfg, mems, lists, order, Progress(old(Contents()), old(managed.objects), none, 0, 0),
                       Progress(Contents(), managed.objects, slots, applied, skipped))
    {
      hide State.Valid, Replayed;
      ghost var first := Progress(Contents(), managed.objects, none, 0, 0);
      applied, skipped, slots := 0, 0, none;
      var k := 0;
      while k < |order|
        invariant k <= |order| && Valid() && fresh(Repr() - old(Repr()))
        invariant SlotsFit(lists, slots) && applied + skipped == k
        invariant ReplayOf(cfg, mems[..k], lists, order[..k], first, Progress(Contents(), managed.objects, slots, applied, skipped))
      {
        var r := order[k];
        ghost var p := Progress(Contents(), managed.objects, slots, applied, skipped);
        ReplaySteps(cfg, mems, lists, order, k, first, p);
        var ok;
        ok, slots := ReplayOne(r.buffer, ActionAt(lists, r), slots, mems[k], p);
        applied := applied + if ok then 1 else 0;
        skipped := skipped + if ok then 0 else 1;
        k := k + 1;
      }
      assert mems[..k] == mems && order[..k] == order;
    }

    /** Runs all the buffers hold, merged into replay order, and leaves them empty. */
    method ReplayCommands(buffers: seq<CommandBuffer>, mems: seq<Memory>) returns (applied: nat, skipped: nat, ghost created: seq<seq<EntityId>>)
      requires Valid() && AllValid(buffers) && (forall i, j :: 0 <= i < j < |buffers| ==> buffers[i] != buffers[j])
      requires |mems| == |ReplayOrder(CommandsOf(buffers))|
      modifies Repr(), managed, buffers
      ensures Valid() && fresh(Repr() - old(Repr()))
      ensures forall i :: 0 <= i < |mems| ==> IsRef(old(CommandsOf(buffers)), ReplayOrder(old(CommandsOf(buffers)))[i])
      ensures ReplayOf(cfg, mems, old(CommandsOf(buffers)), ReplayOrder(old(CommandsOf(buffers))),
                       Progress(old(Contents()), old(managed.objects), old(NoneCreated(buffers)), 0, 0),
                       Progress(Contents(), managed.objects, created, applied, skipped))
      ensures applied + skipped == |mems|
      ensures AllValid(buffers) && forall i :: 0 <= i < |buffers| ==> buffers[i].Contents() == []
    {
      hide State.Valid, ReplayOf, StableSorted, Gathered, SlotsOk, CommandOk, Meaning, Before;
      ReplayOrderIs(CommandsOf(buffers));
      SlotsOfBuffers(buffers);
      var lists: seq<seq<Recorded>>, order, none := Gather(buffers);
      applied, skipped, created := ReplayAll(lists, order, none, mems);
      ClearAll(buffers);
    }
  }

  predicate AllValid(buffers: seq<CommandBuffer>)
    reads buffers
  {
    forall i :: 0 <= i < |buffers| ==> buffers[i].Valid()
  }

  /** What the buffers hold. */
  ghost function CommandsOf(buffers: seq<CommandBuffer>): (r: seq<seq<Recorded>>)
    requires AllValid(buffers)
    reads buffers
    ensures |r| == |buffers| && forall i :: 0 <= i < |buffers| ==> r[i] == buffers[i].Contents()
  {
    seq(|buffers|, i requires 0 <= i < |buffers| && AllValid(buffers) reads buffers => buffers[i].Contents())
  }

  /** One empty slot for every creation. */
  ghost function NoneCreated(buffers: seq<CommandBuffer>): (r: seq<seq<EntityId>>)
    reads buffers
    ensures |r| == |buffers| && forall i :: 0 <= i < |buffers| ==> r[i] == seq(|buffers[i].createMasks|, _ => INVALID_ENTITY)
  {
    seq(|buffers|, i requires 0 <= i < |buffers| reads buffers => seq(|buffers[i].createMasks|, _ => INVALID_ENTITY))
  }

  lemma SlotsOfBuffers(buffers: seq<CommandBuffer>)
    requires AllValid(buffers)
    ensures SlotsFit(CommandsOf(buffers), NoneCreated(buffers))
  {
    var lists: seq<seq<Recorded>> := CommandsOf(buffers);
    var created := NoneCreated(buffers);
    forall b, c | 0 <= b < |lists| && 0 <= c < |lists[b]| ensures SlotsOk(created, b, lists[b][c].action) {
      assert CommandOk(buffers[b].commands[c], |buffers[b].createMasks|, |buffers[b].payload|);
    }
  }

  /** The references of all commands, sorted, and the empty creation slots. */
  method Gather(buffers: seq<CommandBuffer>) returns (lists: seq<seq<Recorded>>, order: seq<Ref>, created: seq<seq<EntityId>>)
    requires AllValid(buffers)
    ensures lists == CommandsOf(buffers) && order == ReplayOrder(lists) && created == NoneCreated(buffers)
  {
    hide StableSorted, Meaning, CommandOk, RefsOf;
    lists, order, created := [], [], [];
    ghost var all := CommandsOf(buffers);
    for b := 0 to |buffers|
      invariant lists == all[..b] && order == Gathered(all, b) && created == NoneCreated(buffers)[..b]
    {
      lists := lists + [buffers[b].Contents()];
      order := order + RefsOf(lists[b], b, 0);
      created := created + [seq(|buffers[b].createMasks|, _ => INVALID_ENTITY)];
    }
    order := StableSorted(order);
  }

  /** The next command is ready, and it extends the replay. */
  lemma ReplaySteps(cfg: Config, mems: seq<Memory>, lists: seq<seq<Recorded>>, order: seq<Ref>, k: nat, first: Progress, p: Progress)
    requires k < |order| == |mems| && p.state.Valid(cfg) && SlotsFit(lists, p.created)
    requires forall i :: 0 <= i < |order| ==> IsRef(lists, order[i])
    requires ReplayOf(cfg, mems[..k], lists, order[..k], first, p)
    ensures IsRef(lists, order[k]) && Ready(cfg, p, order[k].buffer, ActionAt(lists, order[k]))
    ensures var q := Replayed(cfg, mems[k], p, order[k].buffer, ActionAt(lists, order[k]));
      ReplayOf(cfg, mems[..k + 1], lists, order[..k + 1], first, q) && SlotsFit(lists, q.created)
  {
    hide State.Valid;
    var r := order[k];
    ReplayExtends(cfg, mems[..k], lists, order[..k], first, p, mems[k], r);
    assert mems[..k] + [mems[k]] == mems[..k + 1] && order[..k] + [r] == order[..k + 1];
    var handle, room := CommandRefines(cfg, mems[k], p, r.buffer, ActionAt(lists, r));
    SlotsStay(lists, p, Replayed(cfg, mems[k], p, r.buffer, ActionAt(lists, r)));
  }

  method ClearAll(buffers: seq<CommandBuffer>)
    requires forall i, j :: 0 <= i < j < |buffers| ==> buffers[i] != buffers[j]
    modifies buffers
    ensures AllValid(buffers) && forall i :: 0 <= i < |buffers| ==> buffers[i].Contents() == []
  {
    for b := 0 to |buffers|
      invariant forall i :: 0 <= i < b ==> buffers[i].Valid() && buffers[i].Contents() == []
    {
      buffers[b].Clear();
    }
  }
}
