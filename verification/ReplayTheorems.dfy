/** Replaying commands refines a fold of abstract commands over the map of entities. */
module ReplayTheorems {
  import opened Bytes
  import opened Results
  import opened Entities
  import opened Archetypes
  import opened WorldStates
  import opened WorldOperations
  import opened WorldTheorems
  import opened CommandBuffers
  import opened Replays

  /** The replay as its users see it: a map of entities instead of storage. */
  datatype MapProgress = MapProgress(
    entities: map<EntityId, Entity>, managed: map<nat, Managed>, created: seq<seq<EntityId>>, applied: nat, skipped: nat)
  {
    function Count(ok: bool): MapProgress {
      if ok then this.(applied := applied + 1) else this.(skipped := skipped + 1)
    }

    function Put(e: EntityId, x: Entity): MapProgress {
      this.(entities := entities[e := x])
    }

    function Made(b: nat, slot: nat, e: EntityId, x: Entity): MapProgress
      requires b < |created| && slot < |created[b]|
    {
      this.(entities := entities[e := x], created := created[b := created[b][slot := e]], applied := applied + 1)
    }
  }

  function Abstract(p: Progress): MapProgress
    requires p.state.LivePlaced()
  {
    MapProgress(p.state.View(), p.managed, p.created, p.applied, p.skipped)
  }

  /** One command on the map, given the handle a creation gets, if it succeeds, and whether there is
      room for a new composition. */
  function OnMap(cfg: Config, p: MapProgress, b: nat, action: Action, handle: Option<EntityId>, room: bool): MapProgress
    requires SlotsOk(p.created, b, action)
  {
    match action
    case Create(mask, slot) =>
      if handle.Some? then p.Made(b, slot, handle.value, Fresh(cfg, mask, Unmarked)) else p.Count(false)
    case Clone(source, slot) =>
      if handle.Some? && source in p.entities
      then p.Made(b, slot, handle.value, p.entities[source].(mark := if p.entities[source].mark == Prototype then Locked else Unmarked))
      else p.Count(false)
    case _ =>
      var e := Resolve(p.created[b], TargetOfAction(action));
      if e !in p.entities then p.Count(false) else OnEntity(cfg, p, b, action, e, room)
  }

  function OnEntity(cfg: Config, p: MapProgress, b: nat, action: Action, e: EntityId, room: bool): MapProgress
    requires SlotsOk(p.created, b, action) && e in p.entities && !action.Create? && !action.Clone?
  {
    var x := p.entities[e];
    match action
    case Destroy(_) => p.(entities := p.entities - {e}).Count(true)
    case Add(_, t) =>
      if cfg.Registered(t) && x.mark != Locked && t !in x.enabled && room then p.Put(e, Added(cfg, x, t)).Count(true)
      else p.Count(false)
    case Remove(_, t) =>
      if x.mark != Locked && t in x.enabled && room then p.Put(e, Removed(x, t)).Count(true) else p.Count(false)
    case Set(_, t, bytes) =>
      if t in x.values && |bytes| == cfg.Size(t) then p.Put(e, x.(values := x.values[t := bytes])).Count(true) else p.Count(false)
    case Enable(_, t, enabled) =>
      if t in x.enabled then p.Put(e, x.(enabled := x.enabled[t := enabled])).Count(true) else p.Count(false)
    case SetMark(_, mark) =>
      if mark != Prototype && x.mark != Prototype then p.Put(e, x.(mark := mark)).Count(true) else p.Count(false)
    case WriteManaged(_, handle, bytes) =>
      if handle in p.managed && p.managed[handle].typed && p.managed[handle].owner == e && |p.managed[handle].state| == |bytes|
      then p.(managed := p.managed[handle := p.managed[handle].(state := bytes)]).Count(true)
      else p.Count(false)
    case Link(_, t, offset, reference) =>
      var r := if reference.Some? then p.created[b][reference.value] else INVALID_ENTITY;
      if r.IsValid() && t in x.values && |x.values[t]| == cfg.Size(t) && offset + 8 <= cfg.Size(t)
      then p.Put(e, x.(values := x.values[t := Patched(x.values[t], offset, HandleBytes(r))])).Count(true)
      else p.Count(false)
    case Call(_, callable) => p.Count(callable)
  }

  /** The components a command needs an archetype for. */
  function Wanted(p: MapProgress, b: nat, action: Action): Option<set<nat>>
    requires SlotsOk(p.created, b, action)
  {
    match action
    case Create(mask, _) => Some(mask)
    case Clone(source, _) => if source in p.entities then Some(p.entities[source].enabled.Keys) else None
    case _ =>
      var e := Resolve(p.created[b], TargetOfAction(action));
      if e !in p.entities then None
      else if action.Add? then Some(p.entities[e].enabled.Keys + {action.component})
      else if action.Remove? then Some(p.entities[e].enabled.Keys - {action.component})
      else None
  }

  /** A creation gets a handle that no live entity has. */
  predicate Answers(cfg: Config, mem: Memory, p: MapProgress, b: nat, action: Action, handle: Option<EntityId>, room: bool)
    requires SlotsOk(p.created, b, action)
  {
    && (handle.Some? ==> handle.value !in p.entities)
    && Granted(cfg, mem, Wanted(p, b, action), if action.Create? || action.Clone? then handle.Some? else room)
  }

  /** The creation slots keep their shape, and one more command is counted. */
  predicate Steps(p: Progress, q: Progress) {
    && |q.created| == |p.created| && (forall b :: 0 <= b < |p.created| ==> |q.created[b]| == |p.created[b]|)
    && q.applied + q.skipped == p.applied + p.skipped + 1
  }

  ghost predicate Refined(cfg: Config, mem: Memory, p: Progress, q: Progress, b: nat, action: Action, handle: Option<EntityId>, room: bool)
    requires p.state.LivePlaced() && SlotsOk(p.created, b, action)
  {
    && q.state.Valid(cfg) && q.state.LivePlaced() && Steps(p, q)
    && Answers(cfg, mem, Abstract(p), b, action, handle, room)
    && Abstract(q) == OnMap(cfg, Abstract(p), b, action, handle, room)
  }

  lemma CreateCommand(cfg: Config, mem: Memory, p: Progress, b: nat, action: Action) returns (handle: Option<EntityId>)
    requires Ready(cfg, p, b, action) && action.Create? && p.state.LivePlaced()
    ensures Refined(cfg, mem, p, Replayed(cfg, mem, p, b, action), b, action, handle, true)
  {
    hide State.Valid, WorldOperations.Create, State.View;
    CreateRefines(cfg, mem, p.state, action.mask, false);
    var o := WorldOperations.Create(cfg, mem, p.state, action.mask, false);
    handle := if o.result.Ok? then Some(o.result.value) else None;
  }

  lemma CloneCommand(cfg: Config, mem: Memory, p: Progress, b: nat, action: Action) returns (handle: Option<EntityId>)
    requires Ready(cfg, p, b, action) && action.Clone? && p.state.LivePlaced()
    ensures Refined(cfg, mem, p, Replayed(cfg, mem, p, b, action), b, action, handle, true)
  {
    hide State.Valid, CloneEntity, State.View;
    CloneRefines(cfg, mem, p.state, action.source);
    var o := CloneEntity(cfg, mem, p.state, action.source);
    handle := if o.result.Ok? then Some(o.result.value) else None;
  }

  /** The command's target is alive, and these are its components. */
  ghost predicate Targets(cfg: Config, p: Progress, b: nat, action: Action, e: EntityId) {
    && Ready(cfg, p, b, action) && !action.Create? && !action.Clone? && p.state.LivePlaced() && p.state.table.IsAlive(e)
    && e in p.state.View() && p.state.Placed(e) && p.state.View()[e] == p.state.EntityOf(e)
    && Shaped(cfg, p.state.EntityOf(e), p.state.archetypes[p.state.HomeOf(e)].mask)
  }

  ghost predicate Applies(cfg: Config, mem: Memory, p: Progress, b: nat, action: Action, e: EntityId, room: bool)
    requires Targets(cfg, p, b, action, e)
  {
    var q := AppliedTo(cfg, mem, p, b, action, e);
    && q.state.Valid(cfg) && q.state.LivePlaced() && Steps(p, q)
    && (action.Add? ==> Granted(cfg, mem, Some(p.state.View()[e].enabled.Keys + {action.component}), room))
    && (action.Remove? ==> Granted(cfg, mem, Some(p.state.View()[e].enabled.Keys - {action.component}), room))
    && Abstract(q) == OnEntity(cfg, Abstract(p), b, action, e, room)
  }

  lemma DestroyCommand(cfg: Config, mem: Memory, p: Progress, b: nat, action: Action, e: EntityId)
    requires Targets(cfg, p, b, action, e) && action.Destroy?
    ensures Applies(cfg, mem, p, b, action, e, true)
  {
    hide State.Valid;
    DestroyRefines(cfg, p.state, e);
  }

  lemma AddCommand(cfg: Config, mem: Memory, p: Progress, b: nat, action: Action, e: EntityId) returns (room: bool)
    requires Targets(cfg, p, b, action, e) && action.Add?
    ensures Applies(cfg, mem, p, b, action, e, room)
  {
    hide State.Valid, AddComponent, State.View;
    AddRefines(cfg, mem, p.state, e, action.component);
    var x, t := p.state.EntityOf(e), action.component;
    room := if cfg.Registered(t) && x.mark != Locked && t !in x.enabled then AddComponent(cfg, mem, p.state, e, t).result.Ok?
            else cfg.Capacity(x.enabled.Keys + {t}) > 0;
  }

  lemma RemoveCommand(cfg: Config, mem: Memory, p: Progress, b: nat, action: Action, e: EntityId) returns (room: bool)
    requires Targets(cfg, p, b, action, e) && action.Remove?
    ensures Applies(cfg, mem, p, b, action, e, room)
  {
    hide State.Valid, RemoveComponent, State.View;
    RemoveRefines(cfg, mem, p.state, e, action.component);
    var x, t := p.state.EntityOf(e), action.component;
    room := if x.mark != Locked && t in x.enabled then RemoveComponent(cfg, mem, p.state, e, t).result.Ok?
            else cfg.Capacity(x.enabled.Keys - {t}) > 0;
  }

  lemma SetCommand(cfg: Config, mem: Memory, p: Progress, b: nat, action: Action, e: EntityId)
    requires Targets(cfg, p, b, action, e) && action.Set?
    ensures Applies(cfg, mem, p, b, action, e, true)
  {
    hide State.Valid;
    if |action.bytes| == cfg.Size(action.component) {
      SetRefines(cfg, p.state, e, action.component, action.bytes);
    }
  }

  lemma EnableCommand(cfg: Config, mem: Memory, p: Progress, b: nat, action: Action, e: EntityId)
    requires Targets(cfg, p, b, action, e) && action.Enable?
    ensures Applies(cfg, mem, p, b, action, e, true)
  {
    hide State.Valid;
    EnableRefines(cfg, p.state, e, action.component, action.enabled);
  }

  lemma MarkCommand(cfg: Config, mem: Memory, p: Progress, b: nat, action: Action, e: EntityId)
    requires Targets(cfg, p, b, action, e) && action.SetMark?
    ensures Applies(cfg, mem, p, b, action, e, true)
  {
    hide State.Valid;
    MarkRefines(cfg, p.state, e, action.mark);
  }

  lemma LinkCommand(cfg: Config, mem: Memory, p: Progress, b: nat, action: Action, e: EntityId)
    requires Targets(cfg, p, b, action, e) && action.Link?
    ensures Applies(cfg, mem, p, b, action, e, true)
  {
    hide State.Valid, SetComponent, State.View, HandleBytes, Patched;
    LinkRefines(cfg, p, b, e, action.component, action.offset, action.reference);
  }

  lemma OtherCommand(cfg: Config, mem: Memory, p: Progress, b: nat, action: Action, e: EntityId)
    requires Targets(cfg, p, b, action, e) && (action.WriteManaged? || action.Call?)
    ensures Applies(cfg, mem, p, b, action, e, true)
  {
    hide State.Valid;
  }

  lemma TargetRefines(cfg: Config, mem: Memory, p: Progress, b: nat, action: Action, e: EntityId) returns (room: bool)
    requires Targets(cfg, p, b, action, e)
    ensures Applies(cfg, mem, p, b, action, e, room)
  {
    hide State.Valid;
    room := true;
    match action
    case Destroy(_) => DestroyCommand(cfg, mem, p, b, action, e);
    case Add(_, _) => room := AddCommand(cfg, mem, p, b, action, e);
    case Remove(_, _) => room := RemoveCommand(cfg, mem, p, b, action, e);
    case Set(_, _, _) => SetCommand(cfg, mem, p, b, action, e);
    case Enable(_, _, _) => EnableCommand(cfg, mem, p, b, action, e);
    case SetMark(_, _) => MarkCommand(cfg, mem, p, b, action, e);
    case Link(_, _, _, _) => LinkCommand(cfg, mem, p, b, action, e);
    case WriteManaged(_, _, _) => OtherCommand(cfg, mem, p, b, action, e);
    case Call(_, _) => OtherCommand(cfg, mem, p, b, action, e);
  }

  lemma LinkRefines(cfg: Config, p: Progress, b: nat, e: EntityId, x: nat, offset: nat, reference: Option<nat>)
    requires p.state.Valid(cfg) && p.state.table.IsAlive(e) && p.state.Placed(e) && b < |p.created|
    requires reference.Some? ==> reference.value < |p.created[b]|
    ensures var r := if reference.Some? then p.created[b][reference.value] else INVALID_ENTITY;
      && (x in p.state.RowOf(e).values ==> |p.state.RowOf(e).values[x]| == cfg.Size(x))
      && (r.IsValid() && x in p.state.RowOf(e).values && offset + 8 <= cfg.Size(x) ==>
            var value := Patched(p.state.RowOf(e).values[x], offset, HandleBytes(r));
            var t := SetComponent(cfg, p.state, e, x, value);
            && t.Valid(cfg) && p.state.LivePlaced() && t.LivePlaced() && e in p.state.View()
            && t.View() == p.state.View()[e := p.state.EntityOf(e).(values := p.state.EntityOf(e).values[x := value])])
  {
    LiveShape(cfg, p.state, e);
    var r := if reference.Some? then p.created[b][reference.value] else INVALID_ENTITY;
    if r.IsValid() && x in p.state.RowOf(e).values && offset + 8 <= cfg.Size(x) {
      p.state.ValidPlaced(cfg);
      ViewAt(p.state);
      SetRefines(cfg, p.state, e, x, Patched(p.state.RowOf(e).values[x], offset, HandleBytes(r)));
    }
  }

  lemma TargetRefined(cfg: Config, mem: Memory, p: Progress, b: nat, action: Action, e: EntityId, room: bool)
    requires Targets(cfg, p, b, action, e) && Applies(cfg, mem, p, b, action, e, room)
    requires SlotsOk(p.created, b, action) && e == Resolve(p.created[b], TargetOfAction(action))
    ensures Refined(cfg, mem, p, Replayed(cfg, mem, p, b, action), b, action, None, room)
  {
    hide State.Valid, State.View, OnEntity, AppliedTo, Steps, Shaped, SlotsOk, Table.IsAlive;
  }

  /** A command whose target is dead is skipped. */
  lemma DeadTarget(cfg: Config, mem: Memory, p: Progress, b: nat, action: Action)
    requires Ready(cfg, p, b, action) && !action.Create? && !action.Clone? && p.state.LivePlaced()
    requires !p.state.table.IsAlive(Resolve(p.created[b], TargetOfAction(action)))
    requires Resolve(p.created[b], TargetOfAction(action)) !in p.state.View()
    ensures Refined(cfg, mem, p, Replayed(cfg, mem, p, b, action), b, action, None, true)
  {
    hide State.Valid, State.View, OnEntity, AppliedTo, Table.IsAlive, SlotsOk;
  }

  /** Every command does to the map what it says, keeps the storage in order, and counts once; a
      creation or a new composition fails only for want of a layout or of memory. */
  lemma CommandRefines(cfg: Config, mem: Memory, p: Progress, b: nat, action: Action)
    returns (handle: Option<EntityId>, room: bool)
    requires Ready(cfg, p, b, action)
    ensures p.state.LivePlaced() && Refined(cfg, mem, p, Replayed(cfg, mem, p, b, action), b, action, handle, room)
  {
    hide State.Valid, State.View, OnEntity, AppliedTo, Refined, Replayed, Applies;
    p.state.ValidPlaced(cfg);
    ViewAt(p.state);
    handle, room := None, true;
    if action.Create? {
      handle := CreateCommand(cfg, mem, p, b, action);
    } else if action.Clone? {
      handle := CloneCommand(cfg, mem, p, b, action);
    } else {
      var e := Resolve(p.created[b], TargetOfAction(action));
      if p.state.table.IsAlive(e) {
        LiveShape(cfg, p.state, e);
        room := TargetRefines(cfg, mem, p, b, action, e);
        TargetRefined(cfg, mem, p, b, action, e, room);
      } else {
        DeadTarget(cfg, mem, p, b, action);
      }
    }
  }

  // --- whole replays --------------------------------------------------------------------------------

  function ActionAt(buffers: seq<seq<Recorded>>, r: Ref): Action
    requires IsRef(buffers, r)
  {
    buffers[r.buffer][r.command].action
  }

  /** The commands in the order of the references, one after another; `mems` says for each what the
      allocator can give. */
  ghost predicate ReplayOf(cfg: Config, mems: seq<Memory>, buffers: seq<seq<Recorded>>, refs: seq<Ref>, p: Progress, q: Progress)
    requires |mems| == |refs| && forall i :: 0 <= i < |refs| ==> IsRef(buffers, refs[i])
    decreases |refs|
  {
    if refs == [] then q == p
    else
      && Ready(cfg, p, refs[0].buffer, ActionAt(buffers, refs[0]))
      && ReplayOf(cfg, mems[1..], buffers, refs[1..], Replayed(cfg, mems[0], p, refs[0].buffer, ActionAt(buffers, refs[0])), q)
  }

  /** The same commands folded over the map, with the same memory. */
  ghost predicate Folds(cfg: Config, mems: seq<Memory>, buffers: seq<seq<Recorded>>, refs: seq<Ref>, p: MapProgress, q: MapProgress)
    requires |mems| == |refs| && forall i :: 0 <= i < |refs| ==> IsRef(buffers, refs[i])
    decreases |refs|
  {
    if refs == [] then q == p
    else exists m: MapProgress ::
      && FoldStep(cfg, mems[0], p, m, refs[0].buffer, ActionAt(buffers, refs[0]))
      && Folds(cfg, mems[1..], buffers, refs[1..], m, q)
  }

  ghost predicate FoldStep(cfg: Config, mem: Memory, p: MapProgress, q: MapProgress, b: nat, action: Action) {
    SlotsOk(p.created, b, action) &&
    exists handle: Option<EntityId>, room: bool {:trigger OnMap(cfg, p, b, action, handle, room)} ::
      Answers(cfg, mem, p, b, action, handle, room) && q == OnMap(cfg, p, b, action, handle, room)
  }

  /** Every creation slot a command names exists. */
  predicate SlotsFit(buffers: seq<seq<Recorded>>, created: seq<seq<EntityId>>) {
    forall b, c :: 0 <= b < |buffers| && 0 <= c < |buffers[b]| ==> SlotsOk(created, b, buffers[b][c].action)
  }

  lemma SlotsStay(buffers: seq<seq<Recorded>>, p: Progress, q: Progress)
    requires SlotsFit(buffers, p.created) && Steps(p, q)
    ensures SlotsFit(buffers, q.created)
  {}

  /** Replay refines the fold: whatever the commands are, the storage stays in order, the map
      changes as the commands say, in the order of the references, and each command is counted once
      as applied or skipped. */
  lemma {:induction false} ReplayRefines(cfg: Config, mems: seq<Memory>, buffers: seq<seq<Recorded>>, refs: seq<Ref>, p: Progress) returns (q: Progress)
    requires |mems| == |refs| && forall i :: 0 <= i < |refs| ==> IsRef(buffers, refs[i])
    requires p.state.Valid(cfg) && SlotsFit(buffers, p.created)
    ensures ReplayOf(cfg, mems, buffers, refs, p, q)
    ensures q.state.Valid(cfg) && p.state.LivePlaced() && q.state.LivePlaced()
    ensures Folds(cfg, mems, buffers, refs, Abstract(p), Abstract(q))
    ensures q.applied + q.skipped == p.applied + p.skipped + |refs|
    decreases |refs|
  {
    hide State.Valid;
    p.state.ValidPlaced(cfg);
    if refs == [] {
      q := p;
    } else {
      var b, action := refs[0].buffer, ActionAt(buffers, refs[0]);
      var m := Replayed(cfg, mems[0], p, b, action);
      var handle, room := CommandRefines(cfg, mems[0], p, b, action);
      assert FoldStep(cfg, mems[0], Abstract(p), Abstract(m), b, action);
      SlotsStay(buffers, p, m);
      q := ReplayRefines(cfg, mems[1..], buffers, refs[1..], m);
    }
  }

  /** The action creates the entity of this slot. */
  predicate Fills(action: Action, slot: nat) {
    (action.Create? || action.Clone?) && action.slot == slot
  }

  /** A slot changes only by a command of its own buffer that creates its entity, and then holds it. */
  lemma SlotsOfOthers(cfg: Config, mem: Memory, p: MapProgress, q: MapProgress, c: nat, action: Action, b: nat, slot: nat)
    requires FoldStep(cfg, mem, p, q, c, action) && b < |p.created| && slot < |p.created[b]|
    ensures |q.created| == |p.created| && |q.created[b]| == |p.created[b]|
    ensures q.created[b][slot] == p.created[b][slot] ||
            (c == b && Fills(action, slot) && q.created[b][slot] !in p.entities && q.created[b][slot] in q.entities)
  {}

  /** Command i of the replay takes the map from m to n, and creates the entity that the slot holds from
      then on to the end. */
  ghost predicate MadeBy(cfg: Config, mems: seq<Memory>, buffers: seq<seq<Recorded>>, refs: seq<Ref>, p: MapProgress, q: MapProgress,
                         b: nat, slot: nat, i: nat, m: MapProgress, n: MapProgress)
    requires |mems| == |refs| && forall k :: 0 <= k < |refs| ==> IsRef(buffers, refs[k])
  {
    && i < |refs| && refs[i].buffer == b && Fills(ActionAt(buffers, refs[i]), slot)
    && Folds(cfg, mems[..i], buffers, refs[..i], p, m)
    && FoldStep(cfg, mems[i], m, n, b, ActionAt(buffers, refs[i]))
    && Folds(cfg, mems[i + 1..], buffers, refs[i + 1..], n, q)
    && b < |q.created| && slot < |q.created[b]| && b < |n.created| && slot < |n.created[b]|
    && n.created[b][slot] == q.created[b][slot] && q.created[b][slot] !in m.entities && q.created[b][slot] in n.entities
  }

  /** One more command before. */
  lemma MadeLater(cfg: Config, mems: seq<Memory>, buffers: seq<seq<Recorded>>, refs: seq<Ref>, p: MapProgress, next: MapProgress, q: MapProgress,
                  b: nat, slot: nat, i: nat, m: MapProgress, n: MapProgress)
    requires |mems| == |refs| && refs != [] && forall k :: 0 <= k < |refs| ==> IsRef(buffers, refs[k])
    requires FoldStep(cfg, mems[0], p, next, refs[0].buffer, ActionAt(buffers, refs[0]))
    requires MadeBy(cfg, mems[1..], buffers, refs[1..], next, q, b, slot, i, m, n)
    ensures MadeBy(cfg, mems, buffers, refs, p, q, b, slot, i + 1, m, n)
  {
    hide FoldStep;
    assert mems[..i + 1][1..] == mems[1..][..i] && refs[..i + 1][1..] == refs[1..][..i];
    assert mems[i + 2..] == mems[1..][i + 1..] && refs[i + 2..] == refs[1..][i + 1..];
    assert refs[..i + 1][0] == refs[0] && mems[..i + 1][0] == mems[0] && refs[1..][i] == refs[i + 1] && mems[1..][i] == mems[i + 1];
  }

  /** A pending entity is only ever the one that its own buffer's command created: if a slot changes in
      a replay, a command of that buffer which creates the slot's entity has put a new entity into the
      map and its handle into the slot. */
  lemma {:induction false} PendingIsOwn(cfg: Config, mems: seq<Memory>, buffers: seq<seq<Recorded>>, refs: seq<Ref>, p: MapProgress, q: MapProgress,
                                        b: nat, slot: nat)
    requires |mems| == |refs| && (forall k :: 0 <= k < |refs| ==> IsRef(buffers, refs[k])) && Folds(cfg, mems, buffers, refs, p, q)
    requires b < |p.created| && slot < |p.created[b]|
    ensures b < |q.created| && slot < |q.created[b]|
    ensures q.created[b][slot] == p.created[b][slot] ||
            exists i: nat, m: MapProgress, n: MapProgress :: MadeBy(cfg, mems, buffers, refs, p, q, b, slot, i, m, n)
    decreases |refs|
  {
    hide FoldStep, MadeBy;
    if refs != [] {
      var c, action := refs[0].buffer, ActionAt(buffers, refs[0]);
      var next: MapProgress :| FoldStep(cfg, mems[0], p, next, c, action) && Folds(cfg, mems[1..], buffers, refs[1..], next, q);
      SlotsOfOthers(cfg, mems[0], p, next, c, action, b, slot);
      PendingIsOwn(cfg, mems[1..], buffers, refs[1..], next, q, b, slot);
      if q.created[b][slot] != next.created[b][slot] {
        var i: nat, m: MapProgress, n: MapProgress :| MadeBy(cfg, mems[1..], buffers, refs[1..], next, q, b, slot, i, m, n);
        MadeLater(cfg, mems, buffers, refs, p, next, q, b, slot, i, m, n);
      } else if q.created[b][slot] != p.created[b][slot] {
        MadeFirst(cfg, mems, buffers, refs, p, next, q, b, slot);
      }
    }
  }

  lemma MadeFirst(cfg: Config, mems: seq<Memory>, buffers: seq<seq<Recorded>>, refs: seq<Ref>, p: MapProgress, next: MapProgress, q: MapProgress,
                  b: nat, slot: nat)
    requires |mems| == |refs| && refs != [] && forall k :: 0 <= k < |refs| ==> IsRef(buffers, refs[k])
    requires refs[0].buffer == b && Fills(ActionAt(buffers, refs[0]), slot)
    requires FoldStep(cfg, mems[0], p, next, b, ActionAt(buffers, refs[0])) && Folds(cfg, mems[1..], buffers, refs[1..], next, q)
    requires b < |q.created| && slot < |q.created[b]| && b < |next.created| && slot < |next.created[b]|
    requires next.created[b][slot] == q.created[b][slot] && q.created[b][slot] !in p.entities && q.created[b][slot] in next.entities
    ensures MadeBy(cfg, mems, buffers, refs, p, q, b, slot, 0, p, next)
  {
    hide FoldStep;
    assert mems[..0] == [] && refs[..0] == [];
  }

  /** One more command at the end of a replay. */
  lemma {:induction false} ReplayExtends(cfg: Config, mems: seq<Memory>, buffers: seq<seq<Recorded>>, refs: seq<Ref>, p: Progress, m: Progress, mem: Memory, r: Ref)
    requires |mems| == |refs| && (forall i :: 0 <= i < |refs| ==> IsRef(buffers, refs[i])) && IsRef(buffers, r)
    requires ReplayOf(cfg, mems, buffers, refs, p, m) && Ready(cfg, m, r.buffer, ActionAt(buffers, r))
    ensures forall i :: 0 <= i < |refs + [r]| ==> IsRef(buffers, (refs + [r])[i])
    ensures ReplayOf(cfg, mems + [mem], buffers, refs + [r], p, Replayed(cfg, mem, m, r.buffer, ActionAt(buffers, r)))
    decreases |refs|
  {
    hide Ready, Replayed;
    if refs == [] {
      assert (refs + [r])[1..] == [] && (mems + [mem])[1..] == [] && (refs + [r])[0] == r;
    } else {
      var next := Replayed(cfg, mems[0], p, refs[0].buffer, ActionAt(buffers, refs[0]));
      ReplayExtends(cfg, mems[1..], buffers, refs[1..], next, m, mem, r);
      assert (refs + [r])[1..] == refs[1..] + [r] && (mems + [mem])[1..] == mems[1..] + [mem];
    }
  }
}
